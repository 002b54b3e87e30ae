/**
  The route record factories: `createRoute` fills a record with the default meta of a
  navigation entry, `createHiddenRoute` turns the navigation entry off, and
  `createRedirects` expands redirect sources into an exact and a wildcard record each.

  A record's `meta` is a map from key to value, so that the object spread that merges
  `other.meta` over the defaults is map union, right operand winning.
 */
module RouterFactory {
  import opened Wrappers
  import opened Text

  /** A page component, known only by identity. */
  type ComponentId = nat

  /** The `nav` meta entry: either a bare flag (`false` hides the page) or a navigation item. */
  datatype Nav = NavFlag(on: bool) | NavItem(show: bool, title: string)

  /** A meta value: the three the factory writes, and any custom value, known by identity. */
  datatype MetaValue = MetaText(text: string) | MetaBool(flag: bool) | MetaNav(nav: Nav) | MetaCustom(id: nat)

  type Meta = map<string, MetaValue>

  const TITLE := "title"
  const DISABLE_ZOOM := "disableZoom"
  const NAV := "nav"

  /**
    A `redirect` option: a fixed target, or the closure `route => to + "/" + route.params.path`
    that a wildcard record carries, represented by the `to` it captures.
   */
  datatype Redirect = RedirectTo(target: string) | RedirectUnder(base: string)

  /** The path a redirect sends to, given the value of the `path` route parameter. */
  function RedirectTarget(r: Redirect, pathParam: string): string
  {
    match r
    case RedirectTo(target) => target
    case RedirectUnder(base) => base + "/" + pathParam
  }

  /** A route record. `extra` holds the other record options (name, alias, ...) by identity. */
  datatype RouteRecord = RouteRecord(
    path: string,
    meta: Option<Meta>,
    component: Option<ComponentId>,
    children: Option<seq<RouteRecord>>,
    redirect: Option<Redirect>,
    extra: map<string, nat>)

  /** The `attr` part of `other`: record options other than path, component, children and meta. */
  datatype RouteAttrs = RouteAttrs(redirect: Option<Redirect>, extra: map<string, nat>)

  /** The optional last argument of the factories. */
  datatype Other = Other(meta: Option<Meta>, attr: Option<RouteAttrs>)

  /** The meta `createRoute` writes before merging `other.meta`. */
  function DefaultMeta(navTitle: string, title: Option<string>): Meta
  {
    map[TITLE := MetaText(title.GetOr(navTitle)),
        DISABLE_ZOOM := MetaBool(true),
        NAV := MetaNav(NavItem(true, navTitle))]
  }

  /** The meta keys the factory owns; `other.meta` is typed to leave them out. */
  predicate OwnsNoFactoryKey(m: Meta) {
    TITLE !in m && DISABLE_ZOOM !in m && NAV !in m
  }

  /** Models `createRoute(path, component, navTitle, title, children, other)`. */
  function CreateRoute(path: string, component: Option<ComponentId>, navTitle: string,
                       title: Option<string>, children: Option<seq<RouteRecord>>, other: Other): (r: RouteRecord)
    ensures r.path == path && r.meta.Some?
    ensures var custom := other.meta.GetOr(map[]);
      && (forall k :: k in r.meta.value <==> k in custom || k == TITLE || k == DISABLE_ZOOM || k == NAV)
      && (forall k :: k in custom ==> r.meta.value[k] == custom[k])
      && (TITLE !in custom ==> r.meta.value[TITLE] == MetaText(if title.Some? then title.value else navTitle))
      && (DISABLE_ZOOM !in custom ==> r.meta.value[DISABLE_ZOOM] == MetaBool(true))
      && (NAV !in custom ==> r.meta.value[NAV] == MetaNav(NavItem(true, navTitle)))
    ensures r.component == component && r.children == children
    ensures other.attr.None? ==> r.redirect.None? && r.extra == map[]
    ensures other.attr.Some? ==> r.redirect == other.attr.value.redirect && r.extra == other.attr.value.extra
  {
    var meta := DefaultMeta(navTitle, title) + other.meta.GetOr(map[]);
    var attrs := other.attr.GetOr(RouteAttrs(None, map[]));
    RouteRecord(path, Some(meta), component, children, attrs.redirect, attrs.extra)
  }

  /** The in-place update `createHiddenRoute` applies: make sure meta exists, then set `nav = false`. */
  function HideFromNav(r: RouteRecord): (h: RouteRecord)
    ensures h.meta.Some? && NAV in h.meta.value && h.meta.value[NAV] == MetaNav(NavFlag(false))
    ensures forall k :: k != NAV ==> (k in h.meta.value <==> r.meta.Some? && k in r.meta.value)
    ensures forall k :: k != NAV && r.meta.Some? && k in r.meta.value ==> h.meta.value[k] == r.meta.value[k]
    ensures h.(meta := r.meta) == r
  {
    var m := r.meta.GetOr(map[]);
    r.(meta := Some(m[NAV := MetaNav(NavFlag(false))]))
  }

  /** Models `createHiddenRoute(path, component, navTitle, title, children, other)`. */
  function CreateHiddenRoute(path: string, component: Option<ComponentId>, navTitle: string,
                             title: Option<string>, children: Option<seq<RouteRecord>>, other: Other): (r: RouteRecord)
    ensures r.meta.Some? && NAV in r.meta.value && r.meta.value[NAV] == MetaNav(NavFlag(false))
  {
    HideFromNav(CreateRoute(path, component, navTitle, title, children, other))
  }

  /** Whether the navigation bar lists a record: its `nav` is `true` or an item with `show`. */
  predicate ShownInNav(r: RouteRecord) {
    && r.meta.Some? && NAV in r.meta.value && r.meta.value[NAV].MetaNav?
    && match r.meta.value[NAV].nav
       case NavFlag(on) => on
       case NavItem(show, _) => show
  }

  /**
    `createHiddenRoute` agrees with `createRoute` on the same arguments in everything but the
    `nav` entry: same path, component, children and options, same meta keys with the same
    values, and `nav` forced to `false`.
   */
  lemma HiddenRouteDiffersOnlyInNav(path: string, component: Option<ComponentId>, navTitle: string,
                                    title: Option<string>, children: Option<seq<RouteRecord>>, other: Other)
    ensures var shown := CreateRoute(path, component, navTitle, title, children, other);
      var hidden := CreateHiddenRoute(path, component, navTitle, title, children, other);
      && hidden.(meta := shown.meta) == shown
      && hidden.meta.value.Keys == shown.meta.value.Keys
      && (forall k :: k in shown.meta.value && k != NAV ==> hidden.meta.value[k] == shown.meta.value[k])
      && hidden.meta.value[NAV] == MetaNav(NavFlag(false))
  {
    var shown := CreateRoute(path, component, navTitle, title, children, other);
    var hidden := HideFromNav(shown);
    assert NAV in shown.meta.value;
    assert hidden.meta.value.Keys == shown.meta.value.Keys;
  }

  /**
    With `other.meta` as its type allows (no factory-owned key), a `createRoute` record is listed
    in the navigation bar under `navTitle`, its tab title is `title` or else `navTitle`, and zoom is
    disabled; the `createHiddenRoute` record with the same arguments is never listed.
   */
  lemma NavVisibility(path: string, component: Option<ComponentId>, navTitle: string,
                      title: Option<string>, children: Option<seq<RouteRecord>>, other: Other)
    requires other.meta.Some? ==> OwnsNoFactoryKey(other.meta.value)
    ensures var r := CreateRoute(path, component, navTitle, title, children, other);
      && ShownInNav(r)
      && r.meta.value[NAV].nav.title == navTitle
      && r.meta.value[TITLE] == MetaText(if title.Some? then title.value else navTitle)
      && r.meta.value[DISABLE_ZOOM] == MetaBool(true)
    ensures !ShownInNav(CreateHiddenRoute(path, component, navTitle, title, children, other))
  {
  }

  /** Hiding a record twice is the same as hiding it once. */
  lemma HideFromNavIdempotent(r: RouteRecord)
    ensures HideFromNav(HideFromNav(r)) == HideFromNav(r)
  {
    var h := HideFromNav(r);
    assert h.meta.value[NAV := MetaNav(NavFlag(false))] == h.meta.value;
  }

  /** The suffix that turns a source path into the wildcard pattern for everything under it. */
  const WILDCARD_SUFFIX := "/:path(.*)"

  /** The exact record `{ path: prefix, redirect: to }`. */
  function ExactRedirect(to: string, prefix: string): RouteRecord
  {
    RouteRecord(prefix, None, None, None, Some(RedirectTo(to)), map[])
  }

  /** The wildcard record for every path under `prefix`, redirecting under `to`. */
  function WildcardRedirect(to: string, prefix: string): RouteRecord
  {
    RouteRecord(prefix + WILDCARD_SUFFIX, None, None, None, Some(RedirectUnder(to)), map[])
  }

  /**
    Models `createRedirects(to, from)`: for each source path, in order, an exact record and a
    wildcard record.
   */
  method CreateRedirects(to: string, from: seq<string>) returns (routes: seq<RouteRecord>)
    ensures |routes| == 2 * |from|
    ensures forall i :: 0 <= i < |from| ==>
      routes[2 * i] == ExactRedirect(to, from[i]) && routes[2 * i + 1] == WildcardRedirect(to, from[i])
  {
    routes := [];
    var n := 0;
    while n < |from|
      invariant 0 <= n <= |from|
      invariant |routes| == 2 * n
      invariant forall i :: 0 <= i < n ==>
        routes[2 * i] == ExactRedirect(to, from[i]) && routes[2 * i + 1] == WildcardRedirect(to, from[i])
    {
      var prefix := from[n];
      routes := routes + [ExactRedirect(to, prefix)];
      routes := routes + [WildcardRedirect(to, prefix)];
      n := n + 1;
    }
  }

  /**
    What the redirect records promise a visitor: source path `from[i]` itself redirects to `to`,
    and the wildcard record for it sends the captured remainder `p` to `to + "/" + p`.
   */
  lemma RedirectsResolve(to: string, from: seq<string>, routes: seq<RouteRecord>, i: nat, p: string)
    requires |routes| == 2 * |from|
    requires forall j :: 0 <= j < |from| ==>
      routes[2 * j] == ExactRedirect(to, from[j]) && routes[2 * j + 1] == WildcardRedirect(to, from[j])
    requires i < |from|
    ensures routes[2 * i].path == from[i] && routes[2 * i].redirect.Some?
    ensures RedirectTarget(routes[2 * i].redirect.value, p) == to
    ensures StartsWith(routes[2 * i + 1].path, from[i])
    ensures routes[2 * i + 1].path[|from[i]|..] == WILDCARD_SUFFIX
    ensures routes[2 * i + 1].redirect.Some? && RedirectTarget(routes[2 * i + 1].redirect.value, p) == to + "/" + p
  {
    var w := routes[2 * i + 1];
    assert w.path == from[i] + WILDCARD_SUFFIX;
    assert w.path[..|from[i]|] == from[i];
  }

  /** The redirect configuration of the documents section expands to eight records. */
  method DocsRedirects() returns (routes: seq<RouteRecord>)
    ensures |routes| == 8
    ensures routes[0] == ExactRedirect("/docs", "/doc")
    ensures routes[7] == WildcardRedirect("/docs", "/documentation")
    ensures routes[3].redirect.Some? && RedirectTarget(routes[3].redirect.value, "guide/intro") == "/docs/guide/intro"
  {
    var from := ["/doc", "/document", "/documents", "/documentation"];
    routes := CreateRedirects("/docs", from);
    assert from[0] == "/doc" && from[1] == "/document" && from[3] == "/documentation";
    assert routes[2 * 0] == ExactRedirect("/docs", from[0]);
    assert routes[2 * 1 + 1] == WildcardRedirect("/docs", from[1]);
    assert routes[2 * 3 + 1] == WildcardRedirect("/docs", from[3]);
  }
}
