/**
  The browser tab title computed by `setDocumentTitle`: the route's meta title (or a
  default), with every `{id}` placeholder replaced by the `id` route parameter, trimmed,
  and followed by the site name. The final assignment to `document.title` is the result.
 */
module DocumentTitle {
  import opened Wrappers
  import opened Text

  /** The page text used when the route has no title or an empty one. */
  const DEFAULT_PAGE := "Vite App"
  const ID_PLACEHOLDER := "{id}"
  const SEPARATOR := " - "

  /** The parts of the target route the title reads: `meta.title` and `params.id`. */
  datatype TitleRoute = TitleRoute(metaTitle: Option<string>, id: Option<string>)

  /** The page text before substitution: a missing or empty meta title falls back to the default. */
  function BaseText(metaTitle: Option<string>): (base: string)
    ensures base != ""
    ensures metaTitle.Some? && metaTitle.value != "" ==> base == metaTitle.value
    ensures !(metaTitle.Some? && metaTitle.value != "") ==> base == DEFAULT_PAGE
  {
    if metaTitle.Some? && metaTitle.value != "" then metaTitle.value else DEFAULT_PAGE
  }

  /** The page part of the title: placeholders substituted, surrounding whitespace removed. */
  function PageText(route: TitleRoute): (page: string)
    ensures Trim(page) == page
  {
    var substituted := ReplaceAll(BaseText(route.metaTitle), ID_PLACEHOLDER, route.id.GetOr(""));
    TrimIdempotent(substituted);
    Trim(substituted)
  }

  /**
    The title for a page text: the site name alone when the page is empty or is the site name
    itself, and otherwise the page, the separator and the site name.
   */
  function TitleFor(page: string, siteName: string): (title: string)
    ensures EndsWith(title, siteName)
    ensures title == siteName <==> page == "" || page == siteName
    ensures title != siteName ==> StartsWith(title, page) && title[|page|..] == SEPARATOR + siteName
  {
    if page != "" && page != siteName then page + SEPARATOR + siteName else siteName
  }

  /**
    Models `setDocumentTitle(to, siteName)`: the new `document.title`, or `None` when there is
    no document and nothing is assigned.
   */
  function SetDocumentTitle(hasDocument: bool, route: TitleRoute, siteName: string): (title: Option<string>)
    ensures title.None? <==> !hasDocument
    ensures title.Some? ==> EndsWith(title.value, siteName)
  {
    if !hasDocument then None else Some(TitleFor(PageText(route), siteName))
  }

  /** A title without the placeholder does not depend on the `id` parameter. */
  lemma PageIgnoresIdWithoutPlaceholder(metaTitle: Option<string>, id1: Option<string>, id2: Option<string>)
    requires !Contains(BaseText(metaTitle), ID_PLACEHOLDER)
    ensures PageText(TitleRoute(metaTitle, id1)) == PageText(TitleRoute(metaTitle, id2))
    ensures PageText(TitleRoute(metaTitle, id1)) == Trim(BaseText(metaTitle))
  {
    ReplaceAllAbsent(BaseText(metaTitle), ID_PLACEHOLDER, id1.GetOr(""));
    ReplaceAllAbsent(BaseText(metaTitle), ID_PLACEHOLDER, id2.GetOr(""));
  }

  /** The placeholder cannot overlap itself: its opening brace does not recur in it. */
  lemma PlaceholderIsUnbordered()
    ensures ID_PLACEHOLDER != [] && ID_PLACEHOLDER[0] !in ID_PLACEHOLDER[1..]
  {
    assert ID_PLACEHOLDER[1..] == "id}";
  }

  /**
    A title with one `{id}` placeholder gets the `id` parameter (or nothing, when there is
    none) in its place, and the result is trimmed.
   */
  lemma PageSubstitutesId(before: string, after: string, id: Option<string>)
    requires !Contains(before, ID_PLACEHOLDER) && !Contains(after, ID_PLACEHOLDER)
    ensures PageText(TitleRoute(Some(before + ID_PLACEHOLDER + after), id)) == Trim(before + id.GetOr("") + after)
  {
    PlaceholderIsUnbordered();
    ReplaceAllFirstOccurrence(before, ID_PLACEHOLDER, id.GetOr(""), after);
    ReplaceAllAbsent(after, ID_PLACEHOLDER, id.GetOr(""));
  }

  /**
    Every placeholder is substituted: a title made of placeholder-free parts separated by
    `{id}` becomes those parts separated by the `id` parameter, trimmed.
   */
  lemma PageSubstitutesEveryId(parts: seq<string>, id: Option<string>)
    requires |parts| >= 2
    requires forall i :: 0 <= i < |parts| ==> !Contains(parts[i], ID_PLACEHOLDER)
    ensures PageText(TitleRoute(Some(Join(parts, ID_PLACEHOLDER)), id)) == Trim(Join(parts, id.GetOr("")))
  {
    PlaceholderIsUnbordered();
    ReplaceAllJoin(parts, ID_PLACEHOLDER, id.GetOr(""));
  }

  /** A route without a usable title gets the default page text, whatever its `id`. */
  lemma DefaultPageText(metaTitle: Option<string>, id: Option<string>)
    requires metaTitle.None? || metaTitle.value == ""
    ensures PageText(TitleRoute(metaTitle, id)) == DEFAULT_PAGE
  {
    DefaultPageIsPlain();
    assert BaseText(metaTitle) == DEFAULT_PAGE;
    PageIgnoresIdWithoutPlaceholder(metaTitle, id, id);
  }

  /** Such a route is titled with the default page text and the site name. */
  lemma DefaultTitle(metaTitle: Option<string>, id: Option<string>, siteName: string)
    requires metaTitle.None? || metaTitle.value == ""
    requires siteName != DEFAULT_PAGE
    ensures SetDocumentTitle(true, TitleRoute(metaTitle, id), siteName) == Some(DEFAULT_PAGE + SEPARATOR + siteName)
  {
    DefaultPageText(metaTitle, id);
  }

  /** The default page text holds no placeholder and no surrounding whitespace. */
  lemma DefaultPageIsPlain()
    ensures !Contains(DEFAULT_PAGE, ID_PLACEHOLDER)
    ensures Trim(DEFAULT_PAGE) == DEFAULT_PAGE
  {
    assert '{' !in DEFAULT_PAGE;
    NotContainsWithoutFirstChar(DEFAULT_PAGE, ID_PLACEHOLDER);
    assert !IsJsWhitespace(DEFAULT_PAGE[0]);
    assert TrimStart(DEFAULT_PAGE) == DEFAULT_PAGE;
    assert !IsJsWhitespace(DEFAULT_PAGE[|DEFAULT_PAGE| - 1]);
  }

  /** A page whose text is the site name does not repeat it: the title is the site name alone. */
  lemma SiteNameIsNotRepeated(route: TitleRoute, siteName: string)
    requires PageText(route) == siteName
    ensures SetDocumentTitle(true, route, siteName) == Some(siteName)
  {
  }
}
