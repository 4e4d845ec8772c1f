/**
 * The hash router shared by both builds: `parseUrl`, the `fullPath` built
 * from its two parts, route lookup in `navigate` and the redirect to the
 * not-found page.
 */
module Router {
  import opened Wrappers
  import opened Text

  /** The two leading `/`-segments of a location. */
  datatype ParsedUrl = ParsedUrl(path: string, resource: string)

  /** The pages a route can render. */
  datatype View = GarageView | WinnersView | NotFoundView

  /** One entry of the route table: a path and the page its callback renders. */
  datatype Route = Route(path: string, view: View)

  /** What one call of `navigate` does: the page it renders (if any) and the history entries it pushes, in order. */
  datatype Navigation = Navigation(rendered: Option<View>, pushed: seq<string>)

  const GaragePath := "/garage"
  const WinnersPath := "/winners"
  const NotFoundPath := "/404"

  /** The route table both builds install. */
  const AppRoutes := [
    Route("", GarageView),
    Route(GaragePath, GarageView),
    Route(WinnersPath, WinnersView),
    Route(NotFoundPath, NotFoundView)
  ]

  /**
   * `parseUrl`: the first `/`-segment is the path and the second the
   * resource; a missing segment reads as the empty string.
   */
  function ParseUrl(url: string): (p: ParsedUrl)
    ensures '/' !in p.path && '/' !in p.resource
    ensures p.path <= url
    ensures '/' !in url ==> p.path == url && p.resource == ""
    ensures '/' in url ==>
      |p.path| < |url| && url[|p.path|] == '/' &&
      p.resource <= url[|p.path| + 1..] &&
      (|p.path| + 1 + |p.resource| == |url| || url[|p.path| + 1 + |p.resource|] == '/')
  {
    var parts := Split(url, '/');
    SecondSegment(url);
    ParsedUrl(parts[0], if |parts| > 1 then parts[1] else "")
  }

  /** Where the second `/`-segment of `url` sits. */
  lemma SecondSegment(url: string)
    ensures '/' in url ==>
      var i := IndexOf(url, '/');
      var second := Split(url, '/')[1];
      second <= url[i + 1..] &&
      (i + 1 + |second| == |url| || url[i + 1 + |second|] == '/')
  {
    if '/' in url {
      var i := IndexOf(url, '/');
      SplitTail(url, '/');
      var rest := url[i + 1..];
      assert Split(url, '/')[1] == Split(rest, '/')[0];
    }
  }

  /** `fullPath`: the path, followed by `/resource` only when the resource is non-empty. */
  function FullPath(p: ParsedUrl): (s: string)
    ensures p.path <= s
    ensures s == p.path <==> p.resource == ""
  {
    if p.resource != "" then p.path + "/" + p.resource else p.path
  }

  /** `parseUrl` inverts `fullPath` on `/`-free segments. */
  lemma ParseFullPath(p: ParsedUrl)
    requires '/' !in p.path && '/' !in p.resource
    ensures ParseUrl(FullPath(p)) == p
  {
    if p.resource != "" {
      IndexAfterPiece(p.path, '/', p.resource);
    }
  }

  /** The full path of a location is a prefix of it: anything after a second segment is dropped. */
  lemma FullPathIsPrefix(url: string)
    ensures FullPath(ParseUrl(url)) <= url
  {
    var p := ParseUrl(url);
    if p.resource != "" {
      var n := |p.path|;
      assert url[..n] == p.path;
      assert url[n + 1..][..|p.resource|] == p.resource;
      assert url[..n + 1 + |p.resource|] == p.path + "/" + p.resource;
    }
  }

  /** A location made of one non-empty segment after a slash is its own full path. */
  lemma FullPathOfSlashSegment(segment: string)
    requires segment != "" && '/' !in segment
    ensures FullPath(ParseUrl("/" + segment)) == "/" + segment
  {
    var url := "/" + segment;
    var p := ParseUrl(url);
    assert url[0] == '/';
    assert p.path == "";
    assert url[1..] == segment;
    assert p.resource == segment;
  }

  /** The hash locations that do not name a resource land on the route `""`. */
  lemma FullPathOfRoot()
    ensures FullPath(ParseUrl("")) == ""
    ensures FullPath(ParseUrl("/")) == ""
  {
    var p := ParseUrl("/");
    assert "/"[0] == '/';
    assert p.path == "";
  }

  /** `routes.find(...)`: the first route whose path is `path`. */
  function Find(routes: seq<Route>, path: string): (r: Option<Route>)
    ensures r.None? <==> forall k :: 0 <= k < |routes| ==> routes[k].path != path
    ensures r.Some? ==> r.value.path == path
    ensures r.Some? ==>
              exists k :: 0 <= k < |routes| && routes[k] == r.value &&
                          forall j :: 0 <= j < k ==> routes[j].path != path
  {
    if routes == [] then None
    else if routes[0].path == path then Some(routes[0])
    else
      var r := Find(routes[1..], path);
      assert forall k :: 1 <= k < |routes| ==> routes[k] == routes[1..][k - 1];
      r
  }

  /** The route at the first index whose path matches is the one found. */
  lemma FindFirst(routes: seq<Route>, path: string, k: nat)
    requires k < |routes| && routes[k].path == path
    requires forall j :: 0 <= j < k ==> routes[j].path != path
    ensures Find(routes, path) == Some(routes[k])
  {
    if k > 0 {
      FindFirst(routes[1..], path, k - 1);
    }
  }

  /** The route the not-found redirect navigates to resolves to itself. */
  lemma NotFoundPathResolves()
    ensures FullPath(ParseUrl(NotFoundPath)) == NotFoundPath
  {
    assert NotFoundPath == "/" + "404";
    FullPathOfSlashSegment("404");
  }

  /**
   * `navigate(url)`: render the first route whose path is the full path of
   * `url`; with no match, navigate to the not-found route when the table has
   * one (which renders it, since its own path matches), else render nothing.
   * Either way the location is pushed onto the history last.
   */
  function Navigate(routes: seq<Route>, url: string): (n: Navigation)
    ensures |n.pushed| >= 1 && n.pushed[|n.pushed| - 1] == "#" + url
    ensures Find(routes, FullPath(ParseUrl(url))).Some? ==>
      n == Navigation(Some(Find(routes, FullPath(ParseUrl(url))).value.view), ["#" + url])
    ensures Find(routes, FullPath(ParseUrl(url))).None? && Find(routes, NotFoundPath).Some? ==>
      n == Navigation(Some(Find(routes, NotFoundPath).value.view), ["#" + NotFoundPath, "#" + url])
    ensures Find(routes, FullPath(ParseUrl(url))).None? && Find(routes, NotFoundPath).None? ==>
      n == Navigation(None, ["#" + url])
    decreases if Find(routes, FullPath(ParseUrl(url))).Some? then 0 else 1
  {
    var route := Find(routes, FullPath(ParseUrl(url)));
    if route.Some? then
      Navigation(Some(route.value.view), ["#" + url])
    else
      var notFound := Find(routes, NotFoundPath);
      if notFound.Some? then
        NotFoundPathResolves();
        assert notFound.value.path == NotFoundPath;
        var inner := Navigate(routes, notFound.value.path);
        assert inner == Navigation(Some(notFound.value.view), ["#" + NotFoundPath]);
        Navigation(inner.rendered, inner.pushed + ["#" + url])
      else
        Navigation(None, ["#" + url])
  }

  /** The page the app's table renders for a full path. */
  function AppView(fullPath: string): View
  {
    if fullPath == "" || fullPath == GaragePath then GarageView
    else if fullPath == WinnersPath then WinnersView
    else NotFoundView
  }

  /** Looking a path up in the app's table: the four paths differ in length, so at most one matches. */
  lemma FindInAppRoutes(path: string)
    ensures Find(AppRoutes, NotFoundPath) == Some(Route(NotFoundPath, NotFoundView))
    ensures Find(AppRoutes, path) ==
              if path == "" then Some(Route("", GarageView))
              else if path == GaragePath then Some(Route(GaragePath, GarageView))
              else if path == WinnersPath then Some(Route(WinnersPath, WinnersView))
              else if path == NotFoundPath then Some(Route(NotFoundPath, NotFoundView))
              else None
  {
    assert |GaragePath| == 7 && |WinnersPath| == 8 && |NotFoundPath| == 4;
    FindFirst(AppRoutes, NotFoundPath, 3);
    if path == "" {
      FindFirst(AppRoutes, path, 0);
    } else if path == GaragePath {
      FindFirst(AppRoutes, path, 1);
    } else if path == WinnersPath {
      FindFirst(AppRoutes, path, 2);
    } else if path == NotFoundPath {
      FindFirst(AppRoutes, path, 3);
    }
  }

  /**
   * With the app's table every location renders a page: the garage for `""`
   * and `/garage`, the winners page for `/winners`, the not-found page
   * otherwise; an unknown location goes through `/404` first.
   */
  lemma AppNavigation(url: string)
    ensures Navigate(AppRoutes, url).rendered == Some(AppView(FullPath(ParseUrl(url))))
    ensures |Navigate(AppRoutes, url).pushed| <= 2
    ensures AppView(FullPath(ParseUrl(url))) == NotFoundView && FullPath(ParseUrl(url)) != NotFoundPath ==>
      Navigate(AppRoutes, url).pushed == ["#" + NotFoundPath, "#" + url]
  {
    FindInAppRoutes(FullPath(ParseUrl(url)));
  }

  /** The garage is reached from the empty location, from `/` and from `/garage`. */
  lemma GarageLocations()
    ensures Navigate(AppRoutes, "").rendered == Some(GarageView)
    ensures Navigate(AppRoutes, "/").rendered == Some(GarageView)
    ensures Navigate(AppRoutes, GaragePath).rendered == Some(GarageView)
  {
    FullPathOfRoot();
    AppNavigation("");
    AppNavigation("/");
    assert GaragePath == "/" + "garage";
    FullPathOfSlashSegment("garage");
    AppNavigation(GaragePath);
  }
}
