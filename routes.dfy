/**
 * The `Bread` object: the normalisation its constructor applies to `name`,
 * `views` and `plural_name`, the URL names it gives its views and the route
 * table that `get_urls` emits.
 */
module Routes {

  import opened Wrappers
  import opened Views
  import Ascii
  import Strings

  /**
   * One entry of `urlpatterns`: the view it serves, its URL name and its
   * regular expression, kept as the text passed to `url()`.
   */
  datatype Route = Route(view: ViewKind, name: string, pattern: string)

  /**
   * What follows the path prefix in the pattern of each view: anchored at the
   * end, and capturing the primary key exactly for read, edit and delete.
   */
  function PatternTail(k: ViewKind): (t: string)
    ensures |t| > 0 && t[|t| - 1] == '$'
    ensures k == Read || k == Edit || k == Delete <==> "(?P<pk>\\d+)/" <= t
  {
    match k
    case Browse => "$"
    case Read => "(?P<pk>\\d+)/$"
    case Edit => "(?P<pk>\\d+)/edit/$"
    case Add => "add/$"
    case Delete => "(?P<pk>\\d+)/delete/$"
  }

  class Bread {
    /** The model the views are for. */
    const model: ModelMeta
    /** The lower-cased model name. */
    var name: string
    /** The letters of the enabled views, upper-cased. */
    var views: string
    var pluralName: string
    /** The URL namespace the routes are included under, or "" for none. */
    var namespace: string

    /**
     * `Bread.__init__`, with the subclass's class attributes as parameters.
     * `pluralName == None` is the default; an empty string is treated alike.
     */
    constructor (model: ModelMeta, views: string, pluralName: Option<string>, namespace: string)
      ensures this.model == model && this.namespace == namespace
      ensures name == Ascii.Lower(model.objectName)
      ensures this.views == Ascii.Upper(views)
      ensures pluralName.Some? && pluralName.value != "" ==> this.pluralName == pluralName.value
      ensures pluralName.None? || pluralName.value == "" ==> this.pluralName == name + "s"
      ensures this.pluralName != ""
    {
      var lowered := Ascii.Lower(model.objectName);
      var plural := if pluralName.Some? then pluralName.value else "";
      if plural == "" {
        plural := lowered + "s";
      }
      this.model := model;
      this.name := lowered;
      this.views := Ascii.Upper(views);
      this.pluralName := plural;
      this.namespace := namespace;
    }

    /**
     * `get_url_name(view_name, include_namespace)`: the namespace and a colon
     * when asked for and set, then the view name, an underscore, and the plural
     * name for the browse view or the model name for every other.
     */
    function UrlName(viewName: string, includeNamespace: bool): (r: string)
      reads this
      ensures includeNamespace && namespace != "" ==> namespace + ":" <= r
      ensures !includeNamespace || namespace == "" ==> viewName + "_" <= r
    {
      var urlNamespace := if includeNamespace then (if namespace != "" then namespace + ":" else "") else "";
      if viewName == "browse" then urlNamespace + viewName + "_" + pluralName
      else urlNamespace + viewName + "_" + name
    }

    /**
     * `browse_url_name`, `read_url_name`, `edit_url_name`, `add_url_name`,
     * `delete_url_name`; without the namespace, the names of the table in the
     * `get_urls` docstring.
     */
    function ViewUrlName(k: ViewKind, includeNamespace: bool): (r: string)
      reads this
      ensures !includeNamespace ==> r == k.ViewName() + "_" + (if k == Browse then pluralName else name)
    {
      UrlName(k.ViewName(), includeNamespace)
    }

    /**
     * The `url(r'^<prefix><tail>', view, name=<view>_url_name(include_namespace=False))`
     * call of `get_urls` for view `k`, `pathPrefix` being `plural_name + "/"` or "".
     * Its pattern is anchored at both ends.
     */
    function RouteFor(k: ViewKind, pathPrefix: string): (r: Route)
      reads this
      ensures r.view == k && r.name == ViewUrlName(k, false)
      ensures "^" + pathPrefix <= r.pattern && r.pattern[|r.pattern| - 1] == '$'
    {
      Route(k, ViewUrlName(k, false), "^" + pathPrefix + PatternTail(k))
    }

    /** Every route is the one `RouteFor` gives for its view. */
    ghost predicate Formed(routes: seq<Route>, pathPrefix: string)
      reads this
    {
      forall i :: 0 <= i < |routes| ==> routes[i] == RouteFor(routes[i].view, pathPrefix)
    }

    /**
     * `get_urls(prefix)`: one route per enabled view, in the order B, R, E, A, D,
     * each named without the namespace, each pattern anchored and, when
     * `prefix` holds, starting with `plural_name/`.
     */
    method GetUrls(prefix: bool) returns (routes: seq<Route>)
      ensures forall i :: 0 <= i < |routes| ==> routes[i].name == UrlName(routes[i].view.ViewName(), false)
      ensures prefix ==> forall i :: 0 <= i < |routes| ==>
                routes[i].pattern == "^" + pluralName + "/" + PatternTail(routes[i].view)
      ensures !prefix ==> forall i :: 0 <= i < |routes| ==>
                routes[i].pattern == "^" + PatternTail(routes[i].view)
      ensures forall i, j :: 0 <= i < j < |routes| ==> routes[i].view.Rank() < routes[j].view.Rank()
      ensures forall k: ViewKind :: k.Letter() in views <==> exists i :: 0 <= i < |routes| && routes[i].view == k
      ensures forall i, j :: 0 <= i < j < |routes| ==> routes[i].name != routes[j].name && routes[i].pattern != routes[j].pattern
    {
      var pathPrefix := if prefix then pluralName + "/" else "";
      routes := [];
      AppendStep(routes, pathPrefix, Browse);
      if 'B' in views {
        routes := routes + [RouteFor(Browse, pathPrefix)];
      }
      AppendStep(routes, pathPrefix, Read);
      if 'R' in views {
        routes := routes + [RouteFor(Read, pathPrefix)];
      }
      AppendStep(routes, pathPrefix, Edit);
      if 'E' in views {
        routes := routes + [RouteFor(Edit, pathPrefix)];
      }
      AppendStep(routes, pathPrefix, Add);
      if 'A' in views {
        routes := routes + [RouteFor(Add, pathPrefix)];
      }
      AppendStep(routes, pathPrefix, Delete);
      if 'D' in views {
        routes := routes + [RouteFor(Delete, pathPrefix)];
      }
      Emitted(routes, pathPrefix, prefix);
    }

    /** The routes `get_urls` has emitted once it has tested its first `n` letters. */
    ghost function Expected(pathPrefix: string, n: nat): (routes: seq<Route>)
      reads this
      requires n <= 5
    {
      if n == 0 then []
      else
        var k := KindOfRank(n - 1);
        Expected(pathPrefix, n - 1) + (if k.Letter() in views then [RouteFor(k, pathPrefix)] else [])
    }

    /** One `if <letter> in self.views: urlpatterns.append(...)` of `get_urls`. */
    lemma AppendStep(routes: seq<Route>, pathPrefix: string, k: ViewKind)
      requires routes == Expected(pathPrefix, k.Rank())
      ensures k.Letter() in views ==> routes + [RouteFor(k, pathPrefix)] == Expected(pathPrefix, k.Rank() + 1)
      ensures k.Letter() !in views ==> routes == Expected(pathPrefix, k.Rank() + 1)
    {
    }

    /** `Expected` holds the routes of the views `Enabled` lists, position by position. */
    lemma {:induction false} ExpectedIsEnabled(pathPrefix: string, n: nat)
      requires n <= 5
      ensures Formed(Expected(pathPrefix, n), pathPrefix) && Match(Expected(pathPrefix, n), Enabled(views, n))
    {
      if n > 0 {
        ExpectedIsEnabled(pathPrefix, n - 1);
      }
    }

    /** What the five steps of `get_urls` add up to. */
    lemma Emitted(routes: seq<Route>, pathPrefix: string, prefix: bool)
      requires pathPrefix == if prefix then pluralName + "/" else ""
      requires routes == Expected(pathPrefix, 5)
      ensures forall i :: 0 <= i < |routes| ==> routes[i].name == UrlName(routes[i].view.ViewName(), false)
      ensures prefix ==> forall i :: 0 <= i < |routes| ==>
                routes[i].pattern == "^" + pluralName + "/" + PatternTail(routes[i].view)
      ensures !prefix ==> forall i :: 0 <= i < |routes| ==>
                routes[i].pattern == "^" + PatternTail(routes[i].view)
      ensures forall i, j :: 0 <= i < j < |routes| ==> routes[i].view.Rank() < routes[j].view.Rank()
      ensures forall k: ViewKind :: k.Letter() in views <==> exists i :: 0 <= i < |routes| && routes[i].view == k
      ensures forall i, j :: 0 <= i < j < |routes| ==> routes[i].name != routes[j].name && routes[i].pattern != routes[j].pattern
    {
      ExpectedIsEnabled(pathPrefix, 5);
      EmittedInOrder(routes, Enabled(views, 5), views);
      RoutePatterns(routes, pathPrefix, prefix);
      DistinctRoutes(routes, pathPrefix);
    }

    /**
     * A namespaced URL name, as `browse_url_name()` hands it to `reverse_lazy`,
     * is the namespace and a colon, when the namespace is set, in front of the
     * plain URL name; a namespace with no colon of its own splits back off at
     * the first colon.
     */
    lemma UrlNameSplits(viewName: string)
      ensures UrlName(viewName, true) == (if namespace != "" then namespace + ":" else "") + UrlName(viewName, false)
      ensures namespace != "" && ':' !in namespace ==>
                var s := UrlName(viewName, true);
                var i := Strings.FirstOf(s, ':');
                i < |s| && s[..i] == namespace && s[i + 1..] == UrlName(viewName, false)
    {
      var ns, tail := namespace + ":", viewName + "_" + (if viewName == "browse" then pluralName else name);
      assert tail == UrlName(viewName, false);
      if namespace != "" && ':' !in namespace {
        assert UrlName(viewName, true) == ns + viewName + "_" + (if viewName == "browse" then pluralName else name);
        assert ns + viewName + "_" + (if viewName == "browse" then pluralName else name) == ns + tail;
        Strings.SplitAtFirst(namespace, ':', tail);
      }
    }

    /**
     * A plain view URL name splits at its first underscore into the view name and
     * the plural name (browse) or the model name (every other view).
     */
    lemma ViewUrlNameSplits(k: ViewKind)
      ensures var s := ViewUrlName(k, false);
              var i := Strings.FirstOf(s, '_');
              i < |s| && s[..i] == k.ViewName() && s[i + 1..] == (if k == Browse then pluralName else name)
    {
      assert '_' !in k.ViewName() by {
        match k
        case Browse =>
        case Read =>
        case Edit =>
        case Add =>
        case Delete =>
      }
      Strings.SplitAtFirst(k.ViewName(), '_', if k == Browse then pluralName else name);
    }

    /** Different views never share a URL name, with or without the namespace. */
    lemma ViewUrlNamesDistinct(k1: ViewKind, k2: ViewKind, includeNamespace: bool)
      requires k1 != k2
      ensures ViewUrlName(k1, includeNamespace) != ViewUrlName(k2, includeNamespace)
    {
      var ns := if includeNamespace then (if namespace != "" then namespace + ":" else "") else "";
      var n1, n2 := ViewUrlName(k1, includeNamespace), ViewUrlName(k2, includeNamespace);
      assert |ns| < |n1| && n1[|ns|] == k1.ViewName()[0];
      assert |ns| < |n2| && n2[|ns|] == k2.ViewName()[0];
    }

    /** Different views never share a pattern under the same path prefix. */
    lemma RoutePatternsDistinct(k1: ViewKind, k2: ViewKind, pathPrefix: string)
      requires k1 != k2
      ensures RouteFor(k1, pathPrefix).pattern != RouteFor(k2, pathPrefix).pattern
    {
      assert |PatternTail(k1)| != |PatternTail(k2)|;
    }

    /** Routes of strictly increasing rank have pairwise distinct names and patterns. */
    lemma DistinctRoutes(routes: seq<Route>, pathPrefix: string)
      requires Formed(routes, pathPrefix)
      requires forall i, j :: 0 <= i < j < |routes| ==> routes[i].view.Rank() < routes[j].view.Rank()
      ensures forall i, j :: 0 <= i < j < |routes| ==> routes[i].name != routes[j].name && routes[i].pattern != routes[j].pattern
    {
      forall i, j | 0 <= i < j < |routes|
        ensures routes[i].name != routes[j].name && routes[i].pattern != routes[j].pattern
      {
        assert routes[i] == RouteFor(routes[i].view, pathPrefix);
        assert routes[j] == RouteFor(routes[j].view, pathPrefix);
        ViewUrlNamesDistinct(routes[i].view, routes[j].view, false);
        RoutePatternsDistinct(routes[i].view, routes[j].view, pathPrefix);
      }
    }

    /** The patterns of formed routes, with the prefix of `get_urls` written out. */
    lemma RoutePatterns(routes: seq<Route>, pathPrefix: string, prefix: bool)
      requires Formed(routes, pathPrefix)
      requires pathPrefix == if prefix then pluralName + "/" else ""
      ensures forall i :: 0 <= i < |routes| ==> routes[i].name == UrlName(routes[i].view.ViewName(), false)
      ensures prefix ==> forall i :: 0 <= i < |routes| ==>
                routes[i].pattern == "^" + pluralName + "/" + PatternTail(routes[i].view)
      ensures !prefix ==> forall i :: 0 <= i < |routes| ==>
                routes[i].pattern == "^" + PatternTail(routes[i].view)
    {
    }
  }

  /** The view of rank `r`. */
  function KindOfRank(r: nat): (k: ViewKind)
    requires r < 5
    ensures k.Rank() == r
  {
    if r == 0 then Browse else if r == 1 then Read else if r == 2 then Edit else if r == 3 then Add else Delete
  }

  /**
   * The views of rank below `n` whose letter occurs in `views`, in rank order:
   * what `get_urls` has emitted after testing its first `n` letters.
   */
  function Enabled(views: string, n: nat): (kinds: seq<ViewKind>)
    requires n <= 5
  {
    if n == 0 then []
    else Enabled(views, n - 1) + (if KindOfRank(n - 1).Letter() in views then [KindOfRank(n - 1)] else [])
  }

  /** `Enabled` lists views of rank below `n`, in strictly increasing rank. */
  lemma {:induction false} EnabledOrdered(views: string, n: nat)
    requires n <= 5
    ensures forall i :: 0 <= i < |Enabled(views, n)| ==> Enabled(views, n)[i].Rank() < n
    ensures forall i, j :: 0 <= i < j < |Enabled(views, n)| ==> Enabled(views, n)[i].Rank() < Enabled(views, n)[j].Rank()
  {
    if n > 0 {
      EnabledOrdered(views, n - 1);
    }
  }

  /** A view is in `Enabled(views, n)` exactly when its rank is below `n` and its letter is in `views`. */
  lemma {:induction false} EnabledHas(views: string, n: nat, k: ViewKind)
    requires n <= 5
    ensures k in Enabled(views, n) <==> k.Rank() < n && k.Letter() in views
  {
    if n > 0 {
      EnabledHas(views, n - 1, k);
      EnabledOrdered(views, n - 1);
    }
  }

  /** `kinds` lists the views of `routes`, position by position. */
  ghost predicate Match(routes: seq<Route>, kinds: seq<ViewKind>)
  {
    |routes| == |kinds| && forall i :: 0 <= i < |routes| ==> routes[i].view == kinds[i]
  }

  /** Routes whose views are `Enabled(views, 5)` come one per enabled view, in B, R, E, A, D order. */
  lemma EmittedInOrder(routes: seq<Route>, kinds: seq<ViewKind>, views: string)
    requires Match(routes, kinds) && kinds == Enabled(views, 5)
    ensures forall i, j :: 0 <= i < j < |routes| ==> routes[i].view.Rank() < routes[j].view.Rank()
    ensures forall k: ViewKind :: k.Letter() in views <==> exists i :: 0 <= i < |routes| && routes[i].view == k
  {
    EnabledOrdered(views, 5);
    forall k: ViewKind
      ensures k.Letter() in views <==> exists i :: 0 <= i < |routes| && routes[i].view == k
    {
      EnabledHas(views, 5, k);
      if k.Letter() in views {
        var i :| 0 <= i < |routes| && kinds[i] == k;
        assert routes[i].view == k;
      }
      if exists i :: 0 <= i < |routes| && routes[i].view == k {
        var i :| 0 <= i < |routes| && routes[i].view == k;
        assert kinds[i] == k;
      }
    }
  }

  /**
   * The constructor upper-cases `views`, so a view's route is emitted when its
   * letter was given in either case.
   */
  lemma ViewLetterAnyCase(views: string, k: ViewKind)
    ensures k.Letter() in Ascii.Upper(views) <==> k.Letter() in views || Ascii.LowerChar(k.Letter()) in views
  {
    Ascii.UpperContains(views, k.Letter());
  }
}
