/** The channel title of the desktop layout
    (src/components/layout/DiscordLayout.tsx): an exact lookup of the path in
    a fixed route table, falling back to "general". */
module DiscordLayout {
  import opened Wrappers

  /** One entry of the route table: a path and its channel name. */
  datatype Route = Route(path: string, channel: string)

  const Routes: seq<Route> := [
    Route("/", "general"),
    Route("/inventory", "inventory"),
    Route("/sales", "sales-dashboard"),
    Route("/pos", "point-of-sale"),
    Route("/customers", "customers"),
    Route("/customer-management", "customer-management"),
    Route("/employees", "employees"),
    Route("/billing", "invoices"),
    Route("/analytics", "analytics"),
    Route("/settings", "settings"),
    Route("/more", "messages")]

  /** `routes[pathname]`: the channel of the first entry for that exact
      path. */
  function Lookup(routes: seq<Route>, path: string): (r: Option<string>)
    ensures r.None? <==> forall k :: 0 <= k < |routes| ==> routes[k].path != path
    ensures r.Some? ==> exists k :: 0 <= k < |routes| && routes[k].path == path && routes[k].channel == r.value
  {
    if |routes| == 0 then None
    else if routes[0].path == path then Some(routes[0].channel)
    else Lookup(routes[1..], path)
  }

  /** `getChannelName`: `routes[pathname] || 'general'`. */
  function ChannelName(pathname: string): (name: string)
    ensures name != ""
    ensures (forall k :: 0 <= k < |Routes| ==> Routes[k].path != pathname) ==> name == "general"
    ensures name == "general" || exists k :: 0 <= k < |Routes| && Routes[k].path == pathname && Routes[k].channel == name
  {
    match Lookup(Routes, pathname)
    case Some(c) => if c != "" then c else "general"
    case None => "general"
  }

  /** Every listed route gives its own channel name. */
  lemma ListedRoutes()
    ensures forall k :: 0 <= k < |Routes| ==> ChannelName(Routes[k].path) == Routes[k].channel
  {
    forall k | 0 <= k < |Routes| ensures ChannelName(Routes[k].path) == Routes[k].channel {
      ListedRoute(k);
    }
  }

  /** No path is listed twice. */
  lemma PathsDistinct()
    ensures forall i, j :: 0 <= i < |Routes| && 0 <= j < |Routes| && i != j ==> Routes[i].path != Routes[j].path
  {
    assert |Routes[0].path| == 1 && |Routes[1].path| == 10 && |Routes[2].path| == 6 && |Routes[3].path| == 4;
    assert |Routes[4].path| == 10 && |Routes[5].path| == 20 && |Routes[6].path| == 10 && |Routes[7].path| == 8;
    assert |Routes[8].path| == 10 && |Routes[9].path| == 9 && |Routes[10].path| == 5;
    assert Routes[1].path[1] == 'i' && Routes[4].path[1] == 'c' && Routes[6].path[1] == 'e' && Routes[8].path[1] == 'a';
  }

  lemma ListedRoute(k: nat)
    requires k < |Routes|
    ensures ChannelName(Routes[k].path) == Routes[k].channel
  {
    PathsDistinct();
    assert forall j :: 0 <= j < |Routes| ==> Routes[j].channel != "";
    var r := Lookup(Routes, Routes[k].path);
    assert r.Some?;
    var j :| 0 <= j < |Routes| && Routes[j].path == Routes[k].path && Routes[j].channel == r.value;
    assert j == k;
  }

  /** No listed path has a '/' after its first character. */
  lemma ListedPathsHaveOneSlash()
    ensures forall k, i :: 0 <= k < |Routes| && 0 < i < |Routes[k].path| ==> Routes[k].path[i] != '/'
  {
  }

  /** Matching is exact: any deeper path under a listed one, such as
      '/analytics/sales', falls back to "general". */
  lemma SubPathsAreGeneral(path: string, rest: string)
    requires |path| > 1 && |rest| > 0 && rest[0] == '/'
    ensures ChannelName(path + rest) == "general"
  {
    ListedPathsHaveOneSlash();
    assert (path + rest)[|path|] == '/';
  }
}
