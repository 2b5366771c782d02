/**
 * The plugin's Schema.org / JSON-LD derivation: from a post, the hints stored
 * with it and a few site settings, build FAQPage, HowTo, Article and
 * BreadcrumbList objects, extracting questions or steps from the `<h2>`
 * sections of the content when no hints were stored.
 *
 * The WordPress post and every lookup made about it (post meta, categories,
 * tags, thumbnail, permalink, dates, site name, icon, theme logo) are fields
 * of the input records `Post` and `Site`.
 */
module SchemaGenerator {
  import opened Text
  import opened Rewrite
  import opened Search
  import opened Words
  import opened Json

  const SchemaOrg: string := "https://schema.org"

  datatype Category = Category(name: string, link: string)

  datatype Tag = Tag(name: string)

  /** The featured image: URL ("" when WordPress has none) and its size. */
  datatype Thumbnail = Thumbnail(url: string, width: nat, height: nat)

  datatype Post = Post(
    title: string,
    content: string,
    contentType: string,        // the stored content type ("" when unset)
    structuredData: JsonValue,  // the stored structured-data hints
    authorName: string,         // the stored author name ("" when unset)
    permalink: string,
    published: string,          // get_the_date('c')
    modified: string,           // get_the_modified_date('c')
    thumbnail: Option<Thumbnail>,
    categories: seq<Category>,
    tags: seq<Tag>)

  datatype Site = Site(
    name: string,
    homeUrl: string,
    siteIconUrl: string,
    customLogoId: nat,                // 0 when the theme has no custom logo
    customLogoUrl: Option<string>,    // None when the attachment has no URL
    template: string)

  // ---------------------------------------------------------------------------
  // validate_schema

  /** `validate_schema`: an array whose `@context` is exactly schema.org and whose `@type` is set. */
  function ValidateSchema(v: JsonValue): (r: bool)
    ensures r ==> v.JObject?
    ensures r <==> v.JObject? && Get(v.members, "@context") == Some(JString(SchemaOrg)) && IsSet(v, "@type")
  {
    if !v.JObject? then false
    else if !IsSet(v, "@context") || Get(v.members, "@context").value != JString(SchemaOrg) then false
    else IsSet(v, "@type")
  }

  /** Only set-ness of `@type` is checked: an empty type passes. */
  lemma EmptyTypeValidates()
    ensures ValidateSchema(JObject([("@context", JString(SchemaOrg)), ("@type", JString(""))]))
  {
    OpensValid([("@context", JString(SchemaOrg)), ("@type", JString(""))], "");
  }

  /** The `@type` of a schema object, "" when it has none. */
  function SchemaType(v: JsonValue): string {
    if v.JObject? && Get(v.members, "@type").Some? && Get(v.members, "@type").value.JString?
    then Get(v.members, "@type").value.str else ""
  }

  /** Members that open with `@context` and `@type`, as every schema built here does. */
  predicate Opens(ms: seq<(string, JsonValue)>, t: string) {
    |ms| >= 2 && ms[0] == ("@context", JString(SchemaOrg)) && ms[1] == ("@type", JString(t))
  }

  lemma OpensValid(ms: seq<(string, JsonValue)>, t: string)
    requires Opens(ms, t)
    ensures ValidateSchema(JObject(ms)) && SchemaType(JObject(ms)) == t
  {
    assert "@context" != "@type" by {
      assert |"@context"| != |"@type"|;
    }
    assert ms[1..][0] == ms[1];
    assert Get(ms[1..], "@type") == Some(JString(t));
  }

  function Typed(t: string, rest: seq<(string, JsonValue)>): (r: JsonValue)
    ensures ValidateSchema(r) && SchemaType(r) == t
    ensures r.JObject? && Opens(r.members, t) && r.members[2..] == rest
  {
    var ms := [("@context", JString(SchemaOrg)), ("@type", JString(t))] + rest;
    OpensValid(ms, t);
    JObject(ms)
  }

  /** Assignments to other keys keep an object valid and keep its type. */
  lemma SetKeepsValid(v: JsonValue, key: string, x: JsonValue)
    requires ValidateSchema(v) && key != "@context" && key != "@type"
    ensures ValidateSchema(JObject(Set(v.members, key, x))) && SchemaType(JObject(Set(v.members, key, x))) == SchemaType(v)
  {
    GetSetOther(v.members, key, x, "@context");
    GetSetOther(v.members, key, x, "@type");
  }

  // ---------------------------------------------------------------------------
  // get_site_logo_url, get_post_tags, get_post_categories

  /** `get_site_logo_url`: the site icon, else the theme's custom logo, else the default theme path. */
  function SiteLogoUrl(site: Site): (r: JsonValue)
    ensures r.JString? || r == JBool(false)
    ensures !PhpEmpty(site.siteIconUrl) ==> r == JString(site.siteIconUrl)
    ensures r == JBool(false) <==> PhpEmpty(site.siteIconUrl) && site.customLogoId != 0 && site.customLogoUrl.None?
    ensures PhpEmpty(site.siteIconUrl) && site.customLogoId != 0 && site.customLogoUrl.Some? ==>
      r == JString(site.customLogoUrl.value)
    ensures PhpEmpty(site.siteIconUrl) && site.customLogoId == 0 ==>
      r.str == site.homeUrl + "/wp-content/themes/" + site.template + "/images/logo.png"
  {
    if !PhpEmpty(site.siteIconUrl) then JString(site.siteIconUrl)
    else if site.customLogoId != 0 then
      (if site.customLogoUrl.Some? then JString(site.customLogoUrl.value) else JBool(false))
    else JString(site.homeUrl + "/wp-content/themes/" + site.template + "/images/logo.png")
  }

  /** The names of the tags, in order. */
  function TagNames(tags: seq<Tag>): (r: seq<string>)
    ensures |r| == |tags|
  {
    seq(|tags|, i requires 0 <= i < |tags| => tags[i].name)
  }

  /** `get_post_tags`, with its loop collecting the names. */
  method PostTags(tags: seq<Tag>) returns (r: string)
    ensures r == Join(TagNames(tags), ", ")
    ensures |tags| == 0 ==> r == ""
    ensures |tags| == 1 ==> r == tags[0].name
  {
    if |tags| == 0 {
      return "";
    }
    var names: seq<string> := [];
    for i := 0 to |tags|
      invariant |names| == i && forall j :: 0 <= j < i ==> names[j] == tags[j].name
    {
      names := names + [tags[i].name];
    }
    assert names == TagNames(tags);
    r := Join(names, ", ");
  }

  /** The tag names after the first, each behind the space that follows its comma. */
  function SpacedTail(tags: seq<string>): (r: seq<string>)
    ensures |tags| > 0 ==> |r| == |tags| - 1
    decreases |tags|
  {
    if |tags| <= 1 then [] else [" " + tags[1]] + SpacedTail(tags[1..])
  }

  /** Splitting `p` followed by the keywords on commas. */
  lemma {:induction false} ExplodeKeywords(p: string, tags: seq<string>)
    requires |tags| > 0 && ',' !in p && forall i :: 0 <= i < |tags| ==> ',' !in tags[i]
    ensures Explode(p + Join(tags, ", "), ',') == [p + tags[0]] + SpacedTail(tags)
    decreases |tags|
  {
    if |tags| == 1 {
      ExplodeWhole(p + tags[0], ',');
    } else {
      var rest := tags[1..];
      JoinCons(tags[0], rest, ", ");
      assert tags == [tags[0]] + rest;
      ExplodeKeywords(" ", rest);
      assert p + Join(tags, ", ") == (p + tags[0]) + [','] + (" " + Join(rest, ", "));
      ExplodeAfterPiece(p + tags[0], ',', " " + Join(rest, ", "));
    }
  }

  /** The keywords split back on commas give the tags, each after the first behind one space. */
  lemma TagsSplitBack(tags: seq<string>)
    requires |tags| > 0 && forall i :: 0 <= i < |tags| ==> ',' !in tags[i]
    ensures Explode(Join(tags, ", "), ',') == [tags[0]] + SpacedTail(tags)
  {
    ExplodeKeywords("", tags);
    assert "" + Join(tags, ", ") == Join(tags, ", ");
    assert "" + tags[0] == tags[0];
  }

  /** `get_post_categories`: the first category's name, or "". */
  function ArticleSection(categories: seq<Category>): string {
    if |categories| == 0 then "" else categories[0].name
  }

  // ---------------------------------------------------------------------------
  // The base schema and generate_article_schema

  function Description(content: string): string {
    TrimWords(StripTags(content), 30)
  }

  /** The base schema of `generate_schema`, with the image only when the thumbnail has a URL. */
  function BaseSchema(post: Post, site: Site): (r: JsonValue)
    ensures ValidateSchema(r) && SchemaType(r) == "Article"
    ensures |r.members| == if post.thumbnail.Some? && !PhpEmpty(post.thumbnail.value.url) then 10 else 9
  {
    var author := Person(if PhpEmpty(post.authorName) then site.name else post.authorName);
    var publisher := Publisher(site);
    var page := JObject([("@type", JString("WebPage")), ("@id", JString(post.permalink))]);
    var ms := BaseMembers(JString(post.title), JString(Description(post.content)),
      JString(post.published), JString(post.modified), author, publisher, page);
    OpensValid(ms, "Article");
    if post.thumbnail.Some? && !PhpEmpty(post.thumbnail.value.url) then
      var image := ImageOf(post.thumbnail.value);
      OpensValid(ms + [("image", image)], "Article");
      JObject(ms + [("image", image)])
    else JObject(ms)
  }

  /**
   * The base schema's author is a Person named by the stored author name, or by
   * the site name when that is empty; its image, present exactly when the
   * thumbnail has a URL, holds the thumbnail's URL and size.
   */
  lemma BaseSchemaEntries(post: Post, site: Site)
    ensures var r := BaseSchema(post, site);
      Get(r.members, "author") == Some(Person(if PhpEmpty(post.authorName) then site.name else post.authorName)) &&
      (Get(r.members, "image").Some? <==> post.thumbnail.Some? && !PhpEmpty(post.thumbnail.value.url)) &&
      (post.thumbnail.Some? && !PhpEmpty(post.thumbnail.value.url) ==>
        Get(r.members, "image") == Some(ImageOf(post.thumbnail.value)))
  {
    var author := Person(if PhpEmpty(post.authorName) then site.name else post.authorName);
    var page := JObject([("@type", JString("WebPage")), ("@id", JString(post.permalink))]);
    var image := if post.thumbnail.Some? then ImageOf(post.thumbnail.value) else JNull;
    BaseLayout(JString(post.title), JString(Description(post.content)),
      JString(post.published), JString(post.modified), author, Publisher(site), page, image);
  }

  /** The author entry: a Person with the given name. */
  function Person(name: string): JsonValue {
    JObject([("@type", JString("Person")), ("name", JString(name))])
  }

  /** The publisher entry: the site as an Organization with its logo. */
  function Publisher(site: Site): JsonValue {
    JObject([
      ("@type", JString("Organization")),
      ("name", JString(site.name)),
      ("logo", JObject([("@type", JString("ImageObject")), ("url", SiteLogoUrl(site))]))])
  }

  /** The featured image entry: its URL, width and height. */
  function ImageOf(t: Thumbnail): JsonValue {
    JObject([
      ("@type", JString("ImageObject")),
      ("url", JString(t.url)),
      ("width", JNumber(NatToString(t.width))),
      ("height", JNumber(NatToString(t.height)))])
  }

  /** The nine members of the base schema, in the order the source writes them. */
  function BaseMembers(headline: JsonValue, description: JsonValue, published: JsonValue, modified: JsonValue,
                       author: JsonValue, publisher: JsonValue, page: JsonValue): (r: seq<(string, JsonValue)>)
    ensures |r| == 9 && Opens(r, "Article")
  {
    [("@context", JString(SchemaOrg)), ("@type", JString("Article")),
     ("headline", headline), ("description", description),
     ("datePublished", published), ("dateModified", modified),
     ("author", author), ("publisher", publisher), ("mainEntityOfPage", page)]
  }

  /** Where `author` and `image` stand in the base members, with or without the image appended. */
  lemma BaseLayout(headline: JsonValue, description: JsonValue, published: JsonValue, modified: JsonValue,
                   author: JsonValue, publisher: JsonValue, page: JsonValue, image: JsonValue)
    ensures var ms := BaseMembers(headline, description, published, modified, author, publisher, page);
      Get(ms, "author") == Some(author) && Get(ms, "image") == None &&
      Get(ms + [("image", image)], "author") == Some(author) &&
      Get(ms + [("image", image)], "image") == Some(image)
  {
    var ms := BaseMembers(headline, description, published, modified, author, publisher, page);
    assert forall i :: 0 <= i < |ms| ==> ms[i].0 != "image";
    assert forall i :: 0 <= i < 6 ==> ms[i].0 != "author";
    GetAt(ms, 6, "author");
    GetAt(ms + [("image", image)], 6, "author");
    GetAt(ms + [("image", image)], 9, "image");
  }

  /** `str_word_count(strip_tags(content))`. */
  function WordCount(content: string): nat {
    StrWordCount(StripTags(content))
  }

  /** `ceil(words / 200)`: minutes at 200 words a minute, rounded up. */
  function ReadingMinutes(words: nat): (m: nat)
    ensures 200 * m >= words && (m > 0 ==> 200 * (m - 1) < words)
  {
    (words + 199) / 200
  }

  /** The reading time as an ISO 8601 duration in minutes. */
  function TimeRequired(words: nat): string {
    "PT" + NatToString(ReadingMinutes(words)) + "M"
  }

  lemma TimeRequiredExamples()
    ensures TimeRequired(400) == "PT2M" && TimeRequired(401) == "PT3M" && TimeRequired(0) == "PT0M"
  {
    assert ReadingMinutes(400) == 2 && ReadingMinutes(401) == 3 && ReadingMinutes(0) == 0;
  }

  /** The duration reads back as the number of minutes. */
  lemma TimeRequiredReadsBack(words: nat)
    ensures var t := TimeRequired(words);
      |t| >= 4 && t[..2] == "PT" && t[|t| - 1] == 'M' &&
      (forall i :: 2 <= i < |t| - 1 ==> IsDigit(t[i])) &&
      DigitsValue(t[2..|t| - 1]) == ReadingMinutes(words)
  {
    var t := TimeRequired(words);
    var d := NatToString(ReadingMinutes(words));
    assert t[2..|t| - 1] == d;
    DigitsValueOfNatToString(ReadingMinutes(words));
  }

  /** `generate_article_schema`: the base schema with the article fields appended. */
  function ArticleSchema(post: Post, site: Site): (r: JsonValue)
    ensures ValidateSchema(r) && SchemaType(r) == "Article"
    ensures Get(r.members, "wordCount") == Some(JNumber(NatToString(WordCount(post.content))))
    ensures Get(r.members, "timeRequired") == Some(JString(TimeRequired(WordCount(post.content))))
    ensures Get(r.members, "articleSection") == Some(JString(ArticleSection(post.categories)))
    ensures Get(r.members, "keywords") == Some(JString(Join(TagNames(post.tags), ", ")))
  {
    var base := BaseSchema(post, site);
    var words := WordCount(post.content);
    var ms1 := Set(base.members, "@type", JString("Article"));
    var ms2 := Set(ms1, "articleSection", JString(ArticleSection(post.categories)));
    var ms3 := Set(ms2, "keywords", JString(Join(TagNames(post.tags), ", ")));
    var ms4 := Set(ms3, "wordCount", JNumber(NatToString(words)));
    var ms5 := Set(ms4, "timeRequired", JString(TimeRequired(words)));
    ArticleFields(base, ms1, ms2, ms3, ms4, ms5, words, post);
    JObject(ms5)
  }

  lemma ArticleFields(base: JsonValue, ms1: seq<(string, JsonValue)>, ms2: seq<(string, JsonValue)>,
                      ms3: seq<(string, JsonValue)>, ms4: seq<(string, JsonValue)>, ms5: seq<(string, JsonValue)>,
                      words: nat, post: Post)
    requires ValidateSchema(base) && SchemaType(base) == "Article"
    requires ms1 == Set(base.members, "@type", JString("Article"))
    requires ms2 == Set(ms1, "articleSection", JString(ArticleSection(post.categories)))
    requires ms3 == Set(ms2, "keywords", JString(Join(TagNames(post.tags), ", ")))
    requires ms4 == Set(ms3, "wordCount", JNumber(NatToString(words)))
    requires ms5 == Set(ms4, "timeRequired", JString(TimeRequired(words)))
    ensures ValidateSchema(JObject(ms5)) && SchemaType(JObject(ms5)) == "Article"
    ensures Get(ms5, "wordCount") == Some(JNumber(NatToString(words)))
    ensures Get(ms5, "timeRequired") == Some(JString(TimeRequired(words)))
    ensures Get(ms5, "articleSection") == Some(JString(ArticleSection(post.categories)))
    ensures Get(ms5, "keywords") == Some(JString(Join(TagNames(post.tags), ", ")))
  {
    GetSetSame(base.members, "@type", JString("Article"));
    GetSetOther(base.members, "@type", JString("Article"), "@context");
    SetKeepsValid(JObject(ms1), "articleSection", JString(ArticleSection(post.categories)));
    SetKeepsValid(JObject(ms2), "keywords", JString(Join(TagNames(post.tags), ", ")));
    SetKeepsValid(JObject(ms3), "wordCount", JNumber(NatToString(words)));
    SetKeepsValid(JObject(ms4), "timeRequired", JString(TimeRequired(words)));
    GetSetSame(ms3, "wordCount", JNumber(NatToString(words)));
    GetSetOther(ms4, "timeRequired", JString(TimeRequired(words)), "wordCount");
    GetSetSame(ms4, "timeRequired", JString(TimeRequired(words)));
    GetSetSame(ms1, "articleSection", JString(ArticleSection(post.categories)));
    GetSetOther(ms2, "keywords", JString(Join(TagNames(post.tags), ", ")), "articleSection");
    GetSetOther(ms3, "wordCount", JNumber(NatToString(words)), "articleSection");
    GetSetOther(ms4, "timeRequired", JString(TimeRequired(words)), "articleSection");
    GetSetSame(ms2, "keywords", JString(Join(TagNames(post.tags), ", ")));
    GetSetOther(ms3, "wordCount", JNumber(NatToString(words)), "keywords");
    GetSetOther(ms4, "timeRequired", JString(TimeRequired(words)), "keywords");
  }

  // ---------------------------------------------------------------------------
  // generate_breadcrumb_schema

  function ListItem(position: nat, name: string, item: string): JsonValue {
    JObject([
      ("@type", JString("ListItem")),
      ("position", JNumber(NatToString(position))),
      ("name", JString(name)),
      ("item", JString(item))])
  }

  /** Home, then the first category if any, then the post: positions run 1, 2, ... without a gap. */
  function Crumbs(post: Post, site: Site): (r: seq<JsonValue>)
    ensures |r| == if |post.categories| == 0 then 2 else 3
    ensures forall i :: 0 <= i < |r| ==>
      r[i].JObject? && |r[i].members| == 4 && r[i].members[1] == ("position", JNumber(NatToString(i + 1)))
    ensures r[0].members[2] == ("name", JString("Home")) && r[0].members[3] == ("item", JString(site.homeUrl))
    ensures |post.categories| > 0 ==>
      r[1].members[2] == ("name", JString(post.categories[0].name)) &&
      r[1].members[3] == ("item", JString(post.categories[0].link))
    ensures r[|r| - 1].members[2] == ("name", JString(post.title)) &&
      r[|r| - 1].members[3] == ("item", JString(post.permalink))
  {
    var home := ListItem(1, "Home", site.homeUrl);
    if |post.categories| == 0 then [home, ListItem(2, post.title, post.permalink)]
    else
      var c := post.categories[0];
      [home, ListItem(2, c.name, c.link), ListItem(3, post.title, post.permalink)]
  }

  function BreadcrumbSchema(post: Post, site: Site): (r: JsonValue)
    ensures ValidateSchema(r) && SchemaType(r) == "BreadcrumbList"
  {
    Typed("BreadcrumbList", [("itemListElement", JArray(Crumbs(post, site)))])
  }

  // ---------------------------------------------------------------------------
  // extract_faqs_from_content and extract_steps_from_content

  /** A question and its answer, or a step title and its text. */
  datatype Entry = Entry(heading: string, text: string)

  const FaqWords: nat := 100
  const FaqCap: nat := 10
  const StepWords: nat := 150
  const StepCap: nat := 15

  /** One `<h2>` section read as an entry: kept only when the stripped heading and text are both non-empty. */
  function EntryOf(sec: Section, words: nat): (r: Option<Entry>)
    ensures r.Some? <==> !PhpEmpty(StripAllTags(sec.heading)) && !PhpEmpty(TrimWords(StripAllTags(sec.body), words))
    ensures r.Some? ==> r.value.heading == StripAllTags(sec.heading) && !PhpEmpty(r.value.heading)
    ensures r.Some? ==> r.value.text == Trim(TrimWords(StripAllTags(sec.body), words))
  {
    var heading := StripAllTags(sec.heading);
    var text := TrimWords(StripAllTags(sec.body), words);
    TrimOfTrimmed(heading);
    if !PhpEmpty(heading) && !PhpEmpty(text) then Some(Entry(Trim(heading), Trim(text))) else None
  }

  /** Each section read as an entry or as nothing. */
  function Readings(secs: seq<Section>, words: nat): (r: seq<Option<Entry>>)
    ensures |r| == |secs| && forall i :: 0 <= i < |secs| ==> r[i] == EntryOf(secs[i], words)
  {
    seq(|secs|, i requires 0 <= i < |secs| => EntryOf(secs[i], words))
  }

  /** The entries that were read, in section order. */
  function Kept(rs: seq<Option<Entry>>): (r: seq<Entry>)
    ensures |r| <= |rs|
    decreases |rs|
  {
    if |rs| == 0 then []
    else Kept(rs[..|rs| - 1]) + (if rs[|rs| - 1].Some? then [rs[|rs| - 1].value] else [])
  }

  /** Where each kept entry came from: the index of its section. */
  function Origins(rs: seq<Option<Entry>>): seq<nat>
    decreases |rs|
  {
    if |rs| == 0 then []
    else Origins(rs[..|rs| - 1]) + (if rs[|rs| - 1].Some? then [|rs| - 1] else [])
  }

  /**
   * The kept entries are the sections that pass the filter, in section order:
   * their origins increase and each origin gives its entry.
   */
  lemma {:induction false} KeptInOrder(rs: seq<Option<Entry>>)
    ensures var idx := Origins(rs);
      |idx| == |Kept(rs)| &&
      (forall i :: 0 <= i < |idx| ==> idx[i] < |rs| && rs[idx[i]] == Some(Kept(rs)[i])) &&
      (forall i, j :: 0 <= i < j < |idx| ==> idx[i] < idx[j])
    decreases |rs|
  {
    if |rs| > 0 {
      var n := |rs| - 1;
      var init := rs[..n];
      KeptInOrder(init);
      var prev := Origins(init);
      forall i | 0 <= i < |prev| ensures rs[prev[i]] == init[prev[i]] {
      }
    }
  }

  /** Every section that passes the filter is the origin of a kept entry. */
  lemma {:induction false} KeptComplete(rs: seq<Option<Entry>>, k: nat)
    requires k < |rs| && rs[k].Some?
    ensures k in Origins(rs)
    decreases |rs|
  {
    var n := |rs| - 1;
    var init := rs[..n];
    if k < n {
      assert init[k] == rs[k];
      KeptComplete(init, k);
    }
  }

  /** The extractors' result: the first `cap` kept entries. */
  function Extracted(content: string, words: nat, cap: nat): (r: seq<Entry>)
    ensures var k := Kept(Readings(Sections(content), words));
      |r| == (if |k| <= cap then |k| else cap) && r == k[..|r|]
  {
    var k := Kept(Readings(Sections(content), words));
    if |k| > cap then k[..cap] else k
  }

  /** `extract_faqs_from_content` (100 words, 10 entries) and `extract_steps_from_content` (150, 15). */
  method ExtractEntries(content: string, words: nat, cap: nat) returns (entries: seq<Entry>)
    ensures entries == Extracted(content, words, cap)
  {
    var sections := Sections(content);
    ghost var rs := Readings(sections, words);
    entries := [];
    for i := 0 to |sections|
      invariant entries == Kept(rs[..i])
    {
      assert rs[..i + 1][..i] == rs[..i];
      var heading := StripAllTags(sections[i].heading);
      var text := TrimWords(StripAllTags(sections[i].body), words);
      if !PhpEmpty(heading) && !PhpEmpty(text) {
        entries := entries + [Entry(Trim(heading), Trim(text))];
      }
    }
    assert rs[..|sections|] == rs;
    if |entries| > cap {
      entries := entries[..cap];
    }
  }

  // ---------------------------------------------------------------------------
  // generate_faq_schema and generate_howto_schema

  function Question(e: Entry): JsonValue {
    JObject([
      ("@type", JString("Question")),
      ("name", JString(e.heading)),
      ("acceptedAnswer", JObject([("@type", JString("Answer")), ("text", JString(e.text))]))])
  }

  function HowToStep(position: nat, e: Entry): JsonValue {
    JObject([
      ("@type", JString("HowToStep")),
      ("position", JNumber(NatToString(position))),
      ("name", JString(e.heading)),
      ("text", JString(e.text))])
  }

  /** One Question per entry, in order. */
  function Questions(faqs: seq<Entry>): (r: seq<JsonValue>)
    ensures |r| == |faqs| && forall i :: 0 <= i < |r| ==> r[i] == Question(faqs[i])
  {
    seq(|faqs|, i requires 0 <= i < |faqs| => Question(faqs[i]))
  }

  /** Steps numbered from 1 in order. */
  function StepEntities(steps: seq<Entry>): (r: seq<JsonValue>)
    ensures |r| == |steps|
    ensures forall i :: 0 <= i < |r| ==>
      r[i].JObject? && |r[i].members| == 4 && r[i].members[1] == ("position", JNumber(NatToString(i + 1))) &&
      r[i].members[2] == ("name", JString(steps[i].heading))
    ensures forall i :: 0 <= i < |r| ==> r[i] == HowToStep(i + 1, steps[i])
  {
    seq(|steps|, i requires 0 <= i < |steps| => HowToStep(i + 1, steps[i]))
  }

  /** `generate_faq_schema`: stored `mainEntity` verbatim, else the extracted questions, else nothing. */
  function FaqSchema(post: Post): (r: Option<JsonValue>)
    ensures r.Some? ==> ValidateSchema(r.value) && SchemaType(r.value) == "FAQPage" && |r.value.members| == 3
    ensures IsSet(post.structuredData, "mainEntity") ==>
      r.Some? && r.value.members[2] == ("mainEntity", Get(post.structuredData.members, "mainEntity").value)
    ensures r.None? <==> !IsSet(post.structuredData, "mainEntity") && |Extracted(post.content, FaqWords, FaqCap)| == 0
    ensures r.Some? && !IsSet(post.structuredData, "mainEntity") ==>
      r.value.members[2] == ("mainEntity", JArray(Questions(Extracted(post.content, FaqWords, FaqCap))))
  {
    var sd := post.structuredData;
    if IsSet(sd, "mainEntity") then
      Some(Typed("FAQPage", [("mainEntity", Get(sd.members, "mainEntity").value)]))
    else
      var faqs := Extracted(post.content, FaqWords, FaqCap);
      if |faqs| == 0 then None else Some(Typed("FAQPage", [("mainEntity", JArray(Questions(faqs)))]))
  }

  /** `generate_howto_schema`: stored `step` verbatim, else the extracted steps, else nothing. */
  function HowToSchema(post: Post): (r: Option<JsonValue>)
    ensures r.Some? ==> ValidateSchema(r.value) && SchemaType(r.value) == "HowTo" && |r.value.members| == 5
    ensures IsSet(post.structuredData, "step") ==>
      r.Some? && r.value.members[4] == ("step", Get(post.structuredData.members, "step").value)
    ensures r.None? <==> !IsSet(post.structuredData, "step") && |Extracted(post.content, StepWords, StepCap)| == 0
    ensures r.Some? && !IsSet(post.structuredData, "step") ==>
      r.value.members[4] == ("step", JArray(StepEntities(Extracted(post.content, StepWords, StepCap))))
  {
    var sd := post.structuredData;
    var head := [("name", JString(post.title)), ("description", JString(Description(post.content)))];
    if IsSet(sd, "step") then
      Some(Typed("HowTo", head + [("step", Get(sd.members, "step").value)]))
    else
      var steps := Extracted(post.content, StepWords, StepCap);
      if |steps| == 0 then None else Some(Typed("HowTo", head + [("step", JArray(StepEntities(steps)))]))
  }

  /** `generate_faq_schema`, with its loop building the questions. */
  method GenerateFaqSchema(post: Post) returns (r: Option<JsonValue>)
    ensures r == FaqSchema(post)
  {
    var sd := post.structuredData;
    if IsSet(sd, "mainEntity") {
      return Some(Typed("FAQPage", [("mainEntity", Get(sd.members, "mainEntity").value)]));
    }
    var faqs := ExtractEntries(post.content, FaqWords, FaqCap);
    if |faqs| == 0 {
      return None;
    }
    var mainEntity := BuildQuestions(faqs);
    r := Some(Typed("FAQPage", [("mainEntity", JArray(mainEntity))]));
  }

  /** The loop of `generate_faq_schema` building one Question per entry. */
  method BuildQuestions(faqs: seq<Entry>) returns (mainEntity: seq<JsonValue>)
    ensures mainEntity == Questions(faqs)
  {
    mainEntity := [];
    for i := 0 to |faqs|
      invariant |mainEntity| == i && forall k :: 0 <= k < i ==> mainEntity[k] == Question(faqs[k])
    {
      mainEntity := mainEntity + [Question(faqs[i])];
    }
  }

  /** `generate_howto_schema`, with its loop numbering the steps. */
  method GenerateHowToSchema(post: Post) returns (r: Option<JsonValue>)
    ensures r == HowToSchema(post)
  {
    var sd := post.structuredData;
    var head := [("name", JString(post.title)), ("description", JString(Description(post.content)))];
    if IsSet(sd, "step") {
      return Some(Typed("HowTo", head + [("step", Get(sd.members, "step").value)]));
    }
    var steps := ExtractEntries(post.content, StepWords, StepCap);
    if |steps| == 0 {
      return None;
    }
    var entities := BuildSteps(steps);
    r := Some(Typed("HowTo", head + [("step", JArray(entities))]));
  }

  /** The loop of `generate_howto_schema` numbering the steps from 1. */
  method BuildSteps(steps: seq<Entry>) returns (entities: seq<JsonValue>)
    ensures entities == StepEntities(steps)
  {
    entities := [];
    for i := 0 to |steps|
      invariant |entities| == i && forall k :: 0 <= k < i ==> entities[k] == HowToStep(k + 1, steps[k])
    {
      entities := entities + [HowToStep(i + 1, steps[i])];
    }
  }

  // ---------------------------------------------------------------------------
  // has_faq_content and has_howto_content

  const FaqProbes: seq<Probe> := [
    HeadingStarts("what", Spaces), HeadingStarts("how", Spaces), HeadingStarts("why", Spaces),
    HeadingStarts("when", Spaces), HeadingStarts("where", Spaces), HeadingStarts("which", Spaces),
    HeadingStarts("can", Spaces), HeadingStarts("do", Spaces), EmptyQuestionHeading]

  const HowToProbes: seq<Probe> := [
    HeadingStarts("step", SpacesThenDigit), HeadingStarts("how", SpacesThen("to")),
    HeadingStarts("guide", Anything), HeadingStarts("tutorial", Anything)]

  predicate AnyFound(probes: seq<Probe>, content: string) {
    exists i :: 0 <= i < |probes| && Found(probes[i], content)
  }

  /** The loops of `has_faq_content` and `has_howto_content`: the first probe that matches answers true. */
  method HasContent(probes: seq<Probe>, content: string) returns (r: bool)
    ensures r <==> AnyFound(probes, content)
  {
    for i := 0 to |probes|
      invariant forall j :: 0 <= j < i ==> !Found(probes[j], content)
    {
      if Found(probes[i], content) {
        return true;
      }
    }
    return false;
  }

  /** A question heading is recognised whatever its case. */
  lemma QuestionHeadingIsFaq(rest: string)
    ensures AnyFound(FaqProbes, "<H2>What " + rest)
  {
    var s := "<H2>What " + rest;
    assert H2OpenEnd(s, 0) == Some(4) by {
      assert StartsAtIgnoringCase(s, 0, "<h2");
      assert FindChar(s, 3, '>') == Some(3);
    }
    assert SkipRun(s, 4, Space) == 4;
    assert StartsAtIgnoringCase(s, 4, "what");
    assert ProbeAt(FaqProbes[0], s, 0);
  }

  // ---------------------------------------------------------------------------
  // generate_schema

  /** The requested types: a list, or one value that is wrapped into a list. */
  datatype Requested = Listed(types: seq<string>) | Single(t: string)

  function RequestedTypes(req: Requested): seq<string> {
    match req
    case Listed(types) => types
    case Single(t) => [t]
  }

  function OptionSeq(o: Option<JsonValue>): seq<JsonValue> {
    if o.Some? then [o.value] else []
  }

  /** The FAQ schema when requested and the content type or a question heading calls for one. */
  function FaqPart(post: Post, types: seq<string>): (r: Option<JsonValue>)
    ensures r.Some? <==>
      "faq" in types && (post.contentType == "faq" || AnyFound(FaqProbes, post.content)) && FaqSchema(post).Some?
    ensures r.Some? ==> r == FaqSchema(post)
    ensures AtMostOneOf(OptionSeq(r), "FAQPage")
  {
    if "faq" in types && (post.contentType == "faq" || AnyFound(FaqProbes, post.content)) then FaqSchema(post) else None
  }

  /** The HowTo schema when requested and the content type or a step heading calls for one. */
  function HowToPart(post: Post, types: seq<string>): (r: Option<JsonValue>)
    ensures r.Some? <==>
      "howto" in types && (post.contentType == "howto" || AnyFound(HowToProbes, post.content)) && HowToSchema(post).Some?
    ensures r.Some? ==> r == HowToSchema(post)
    ensures AtMostOneOf(OptionSeq(r), "HowTo")
  {
    if "howto" in types && (post.contentType == "howto" || AnyFound(HowToProbes, post.content)) then HowToSchema(post) else None
  }

  function ArticlePart(post: Post, site: Site, types: seq<string>): (r: seq<JsonValue>)
    ensures AtMostOneOf(r, "Article") && (|r| == 1 <==> "article" in types)
  {
    if "article" in types then [ArticleSchema(post, site)] else []
  }

  function BreadcrumbPart(post: Post, site: Site, types: seq<string>): (r: seq<JsonValue>)
    ensures AtMostOneOf(r, "BreadcrumbList") && (|r| == 1 <==> "breadcrumb" in types)
  {
    if "breadcrumb" in types then [BreadcrumbSchema(post, site)] else []
  }

  /** The schemas `generate_schema` collects, always in the order faq, howto, article, breadcrumb. */
  function Schemas(post: Post, site: Site, req: Requested): seq<JsonValue> {
    Collected(post, site, RequestedTypes(req))
  }

  function Collected(post: Post, site: Site, types: seq<string>): seq<JsonValue> {
    OptionSeq(FaqPart(post, types)) + OptionSeq(HowToPart(post, types))
      + ArticlePart(post, site, types) + BreadcrumbPart(post, site, types)
  }

  /** What `generate_schema` returns: the base schema if nothing was collected, one schema bare, several as a list. */
  function SchemaOutput(post: Post, site: Site, req: Requested): JsonValue {
    var list := Schemas(post, site, req);
    if |list| == 0 then BaseSchema(post, site) else if |list| == 1 then list[0] else JArray(list)
  }

  /** `generate_schema`, appending schema by schema. */
  method GenerateSchema(post: Post, site: Site, req: Requested) returns (r: JsonValue)
    ensures r == SchemaOutput(post, site, req)
  {
    var base := BaseSchema(post, site);
    var data := CollectSchemas(post, site, RequestedTypes(req));
    if |data| == 0 {
      data := data + [base];
    }
    r := if |data| == 1 then data[0] else JArray(data);
  }

  /** The four appends of `generate_schema`. */
  method CollectSchemas(post: Post, site: Site, types: seq<string>) returns (data: seq<JsonValue>)
    ensures data == Collected(post, site, types)
  {
    data := CollectFaqAndHowTo(post, types);
    data := AppendArticleAndBreadcrumb(post, site, types, data);
  }

  /** The last two appends of `generate_schema`. */
  method AppendArticleAndBreadcrumb(post: Post, site: Site, types: seq<string>, data: seq<JsonValue>)
    returns (r: seq<JsonValue>)
    ensures r == data + ArticlePart(post, site, types) + BreadcrumbPart(post, site, types)
  {
    r := data;
    if "article" in types {
      r := r + [ArticleSchema(post, site)];
    }
    assert r == data + ArticlePart(post, site, types);
    if "breadcrumb" in types {
      r := r + [BreadcrumbSchema(post, site)];
    }
  }

  /** The first two appends of `generate_schema`. */
  method CollectFaqAndHowTo(post: Post, types: seq<string>) returns (data: seq<JsonValue>)
    ensures data == OptionSeq(FaqPart(post, types)) + OptionSeq(HowToPart(post, types))
  {
    data := [];
    if "faq" in types {
      var matches := post.contentType == "faq";
      if !matches {
        matches := HasContent(FaqProbes, post.content);
      }
      if matches {
        var faq := GenerateFaqSchema(post);
        if faq.Some? {
          data := data + [faq.value];
        }
      }
    }
    assert data == OptionSeq(FaqPart(post, types));
    if "howto" in types {
      var matches := post.contentType == "howto";
      if !matches {
        matches := HasContent(HowToProbes, post.content);
      }
      if matches {
        var howto := GenerateHowToSchema(post);
        if howto.Some? {
          data := data + [howto.value];
        }
      }
    }
  }

  /** The rank of a schema type in the output order. */
  function Rank(t: string): nat {
    if t == "FAQPage" then 0 else if t == "HowTo" then 1 else if t == "Article" then 2 else 3
  }

  /** At most one schema, valid and of type `t`. */
  predicate AtMostOneOf(xs: seq<JsonValue>, t: string) {
    |xs| <= 1 && forall i :: 0 <= i < |xs| ==> ValidateSchema(xs[i]) && SchemaType(xs[i]) == t
  }

  lemma RankValues()
    ensures Rank("FAQPage") == 0 && Rank("HowTo") == 1 && Rank("Article") == 2 && Rank("BreadcrumbList") == 3
  {
    assert "HowTo" != "FAQPage" by { assert |"HowTo"| != |"FAQPage"|; }
    assert "Article" != "FAQPage" by { assert "Article"[0] != "FAQPage"[0]; }
    assert "Article" != "HowTo" by { assert |"Article"| != |"HowTo"|; }
    assert "BreadcrumbList" != "FAQPage" by { assert |"BreadcrumbList"| != |"FAQPage"|; }
    assert "BreadcrumbList" != "HowTo" by { assert |"BreadcrumbList"| != |"HowTo"|; }
    assert "BreadcrumbList" != "Article" by { assert |"BreadcrumbList"| != |"Article"|; }
  }

  /** The part, counted from 0, that position `i` of four concatenated parts falls in. */
  function PartOf(na: nat, nb: nat, nc: nat, i: nat): nat {
    if i < na then 0 else if i < na + nb then 1 else if i < na + nb + nc then 2 else 3
  }

  /** The schema at `i` of the four parts, with the rank of its part. */
  lemma PartAt(a: seq<JsonValue>, b: seq<JsonValue>, c: seq<JsonValue>, d: seq<JsonValue>, i: nat)
    requires AtMostOneOf(a, "FAQPage") && AtMostOneOf(b, "HowTo")
    requires AtMostOneOf(c, "Article") && AtMostOneOf(d, "BreadcrumbList")
    requires i < |a + b + c + d|
    ensures var list := a + b + c + d;
      ValidateSchema(list[i]) && Rank(SchemaType(list[i])) == PartOf(|a|, |b|, |c|, i)
  {
    RankValues();
    var list := a + b + c + d;
    if i < |a| {
      assert list[i] == a[i];
    } else if i < |a| + |b| {
      assert list[i] == b[i - |a|];
    } else if i < |a| + |b| + |c| {
      assert list[i] == c[i - |a| - |b|];
    } else {
      assert list[i] == d[i - |a| - |b| - |c|];
    }
  }

  lemma PartsRanked(a: seq<JsonValue>, b: seq<JsonValue>, c: seq<JsonValue>, d: seq<JsonValue>)
    requires AtMostOneOf(a, "FAQPage") && AtMostOneOf(b, "HowTo")
    requires AtMostOneOf(c, "Article") && AtMostOneOf(d, "BreadcrumbList")
    ensures var list := a + b + c + d;
      forall i :: 0 <= i < |list| ==>
        ValidateSchema(list[i]) && Rank(SchemaType(list[i])) == PartOf(|a|, |b|, |c|, i)
  {
    var list := a + b + c + d;
    forall i | 0 <= i < |list|
      ensures ValidateSchema(list[i]) && Rank(SchemaType(list[i])) == PartOf(|a|, |b|, |c|, i)
    {
      PartAt(a, b, c, d, i);
    }
  }

  /** Parts of at most one schema each come out valid and strictly ranked. */
  lemma PartsInOrder(a: seq<JsonValue>, b: seq<JsonValue>, c: seq<JsonValue>, d: seq<JsonValue>)
    requires AtMostOneOf(a, "FAQPage") && AtMostOneOf(b, "HowTo")
    requires AtMostOneOf(c, "Article") && AtMostOneOf(d, "BreadcrumbList")
    ensures var list := a + b + c + d;
      (forall i :: 0 <= i < |list| ==> ValidateSchema(list[i])) &&
      (forall i, j :: 0 <= i < j < |list| ==> Rank(SchemaType(list[i])) < Rank(SchemaType(list[j])))
  {
    PartsRanked(a, b, c, d);
  }

  /** A rank occurs in the concatenation exactly when its part holds a schema. */
  lemma PartsPresent(a: seq<JsonValue>, b: seq<JsonValue>, c: seq<JsonValue>, d: seq<JsonValue>)
    requires AtMostOneOf(a, "FAQPage") && AtMostOneOf(b, "HowTo")
    requires AtMostOneOf(c, "Article") && AtMostOneOf(d, "BreadcrumbList")
    ensures var list := a + b + c + d;
      ((exists i :: 0 <= i < |list| && Rank(SchemaType(list[i])) == 0) <==> |a| == 1) &&
      ((exists i :: 0 <= i < |list| && Rank(SchemaType(list[i])) == 1) <==> |b| == 1) &&
      ((exists i :: 0 <= i < |list| && Rank(SchemaType(list[i])) == 2) <==> |c| == 1) &&
      ((exists i :: 0 <= i < |list| && Rank(SchemaType(list[i])) == 3) <==> |d| == 1)
  {
    var list := a + b + c + d;
    PartsRanked(a, b, c, d);
    if |a| == 1 { assert Rank(SchemaType(list[0])) == 0; }
    if |b| == 1 { assert Rank(SchemaType(list[|a|])) == 1; }
    if |c| == 1 { assert Rank(SchemaType(list[|a| + |b|])) == 2; }
    if |d| == 1 { assert Rank(SchemaType(list[|a| + |b| + |c|])) == 3; }
  }

  /**
   * Whatever the order of the request, the collected schemas are all valid
   * and come out ranked FAQPage, HowTo, Article, BreadcrumbList, each at most once.
   */
  lemma SchemasInFixedOrder(post: Post, site: Site, req: Requested)
    ensures var list := Schemas(post, site, req);
      (forall i :: 0 <= i < |list| ==> ValidateSchema(list[i])) &&
      (forall i, j :: 0 <= i < j < |list| ==> Rank(SchemaType(list[i])) < Rank(SchemaType(list[j])))
  {
    var types := RequestedTypes(req);
    PartsInOrder(OptionSeq(FaqPart(post, types)), OptionSeq(HowToPart(post, types)),
      ArticlePart(post, site, types), BreadcrumbPart(post, site, types));
  }

  /**
   * FAQPage is in the output exactly when requested, called for by the content
   * type or a question heading, and not empty; HowTo likewise; Article and
   * BreadcrumbList exactly when requested.
   */
  lemma SchemasPresent(post: Post, site: Site, req: Requested)
    ensures var list := Schemas(post, site, req);
      var types := RequestedTypes(req);
      ((exists i :: 0 <= i < |list| && Rank(SchemaType(list[i])) == 0) <==>
        "faq" in types && (post.contentType == "faq" || AnyFound(FaqProbes, post.content)) && FaqSchema(post).Some?) &&
      ((exists i :: 0 <= i < |list| && Rank(SchemaType(list[i])) == 1) <==>
        "howto" in types && (post.contentType == "howto" || AnyFound(HowToProbes, post.content)) && HowToSchema(post).Some?) &&
      ((exists i :: 0 <= i < |list| && Rank(SchemaType(list[i])) == 2) <==> "article" in types) &&
      ((exists i :: 0 <= i < |list| && Rank(SchemaType(list[i])) == 3) <==> "breadcrumb" in types)
  {
    var types := RequestedTypes(req);
    PartsPresent(OptionSeq(FaqPart(post, types)), OptionSeq(HowToPart(post, types)),
      ArticlePart(post, site, types), BreadcrumbPart(post, site, types));
  }

  /** The output passes `validate_schema` exactly when it is a single schema, not a list. */
  lemma OutputValidIffSingle(post: Post, site: Site, req: Requested)
    ensures ValidateSchema(SchemaOutput(post, site, req)) <==> |Schemas(post, site, req)| <= 1
  {
    var list := Schemas(post, site, req);
    SchemasInFixedOrder(post, site, req);
  }

  /**
   * The output is the base Article when nothing was collected, one bare valid
   * schema when one was, and otherwise a list of two or more valid schemas.
   */
  lemma OutputShape(post: Post, site: Site, req: Requested)
    ensures var r := SchemaOutput(post, site, req);
      (|Schemas(post, site, req)| == 0 ==> r == BaseSchema(post, site)) &&
      (|Schemas(post, site, req)| == 1 ==> r == Schemas(post, site, req)[0]) &&
      (|Schemas(post, site, req)| >= 2 ==> r == JArray(Schemas(post, site, req))) &&
      (ValidateSchema(r) || (r.JArray? && |r.items| >= 2 && forall i :: 0 <= i < |r.items| ==> ValidateSchema(r.items[i])))
  {
    SchemasInFixedOrder(post, site, req);
  }

  /** Only membership in the request matters, not its order or repetitions. */
  lemma RequestOrderIrrelevant(post: Post, site: Site, r1: Requested, r2: Requested)
    requires forall t :: t in RequestedTypes(r1) <==> t in RequestedTypes(r2)
    ensures SchemaOutput(post, site, r1) == SchemaOutput(post, site, r2)
  {
    var t1, t2 := RequestedTypes(r1), RequestedTypes(r2);
    assert ("faq" in t1 <==> "faq" in t2) && ("howto" in t1 <==> "howto" in t2);
    assert ("article" in t1 <==> "article" in t2) && ("breadcrumb" in t1 <==> "breadcrumb" in t2);
    CollectedAgree(post, site, t1, t2);
  }

  /** The collected schemas depend on the four type names only through their membership. */
  lemma CollectedAgree(post: Post, site: Site, t1: seq<string>, t2: seq<string>)
    requires ("faq" in t1 <==> "faq" in t2) && ("howto" in t1 <==> "howto" in t2)
    requires ("article" in t1 <==> "article" in t2) && ("breadcrumb" in t1 <==> "breadcrumb" in t2)
    ensures Collected(post, site, t1) == Collected(post, site, t2)
  {
    assert FaqPart(post, t1) == FaqPart(post, t2);
    assert HowToPart(post, t1) == HowToPart(post, t2);
    assert ArticlePart(post, site, t1) == ArticlePart(post, site, t2);
    assert BreadcrumbPart(post, site, t1) == BreadcrumbPart(post, site, t2);
  }
}
