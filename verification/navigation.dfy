/** The navigation provider (`NavigationContext.tsx`): the current view and
    the history of views visited. */
module Navigation {
  import opened Wrappers

  /** `ViewType`: one constructor per `type` tag, with that tag's
      arguments, so each `navigateToX(args)` is `navigateTo` of the
      constructor applied to `args`. A category is kept as its string. */
  datatype View =
    | Auth
    | Materials
    | SearchResults(query: string)
    | MaterialDetail(materialId: string)
    | Articles(category: string, materialId: string)
    | ArticleDetail(articleId: string, materialId: string, category: string)
    | ArticleStandalone(articleId: string, materialId: string, category: string)
    | MethodologyList
    | Whitepaper(whitepaperSlug: string)
    | AdminDashboard
    | DataManagement
    | UserManagement
    | WhitepaperSync
    | ScientificEditor(materialId: string)
    | Export
    | UserProfile(userId: string)
    | MySubmissions
    | ReviewCenter
    | ApiDocs
    | SourceLibrary
    | SourceComparison
    | EvidenceLab
    | TransformFormulaTesting
    | Licenses
    | LegalHub
    | ScienceHub
    | TakedownForm
    | TakedownStatus(requestId: string)
    | AdminTakedownList
    | AuditLog
    | DataRetention
    | Phase9Testing
    | Phase9Day10Testing
    | TransformManager
    | WhitepapersManagement
    | AssetsManagement
    | MathTools(defaultTab: Option<string>)
    | ChartsPerformance
    | Roadmap
    | RoadmapOverview(defaultTab: Option<string>)

  /** The provider's state. */
  datatype Nav = Nav(current: View, history: seq<View>)

  /** The state the provider starts in. */
  const Initial := Nav(Materials, [Materials])

  /** What `navigateTo` and `goBack` keep: a non-empty history whose last
      entry is the current view. */
  predicate Valid(n: Nav) {
    |n.history| >= 1 && n.current == n.history[|n.history| - 1]
  }

  /** `navigateTo(view)`: show it and push it. */
  function NavigateTo(n: Nav, v: View): (r: Nav)
    ensures r.current == v
    ensures |r.history| == |n.history| + 1 && r.history[..|n.history|] == n.history
    ensures Valid(r)
  {
    Nav(v, n.history + [v])
  }

  /** `goBack`: pop the history and show the new last entry; at the root
      navigate to the materials view, which pushes it. */
  function GoBack(n: Nav): (r: Nav)
    ensures |n.history| > 1 ==> r.history == n.history[..|n.history| - 1] && r.current == r.history[|r.history| - 1]
    ensures |n.history| <= 1 ==> r == NavigateTo(n, Materials)
    ensures Valid(r)
  {
    if |n.history| > 1 then
      var h := n.history[..|n.history| - 1];
      Nav(h[|h| - 1], h)
    else NavigateTo(n, Materials)
  }

  /** `setCurrentView(view)`: the raw setter the provider also exports;
      it leaves the history alone. */
  function SetCurrentView(n: Nav, v: View): (r: Nav)
    ensures r.current == v && r.history == n.history
  {
    n.(current := v)
  }

  /** The initial state is valid. */
  lemma InitialValid()
    ensures Valid(Initial) && Initial.current == Materials && |Initial.history| == 1
  {
  }

  /** Going back undoes a navigation. */
  lemma BackUndoesNavigate(n: Nav, v: View)
    requires Valid(n)
    ensures GoBack(NavigateTo(n, v)) == n
  {
    var m := NavigateTo(n, v);
    assert m.history[..|m.history| - 1] == n.history;
  }

  /** Going back at the root leaves two entries: the root and the
      materials view. */
  lemma BackAtRoot(n: Nav)
    requires Valid(n) && |n.history| == 1
    ensures GoBack(n).history == [n.current, Materials] && GoBack(n).current == Materials
  {
  }

  /** The actions the provider's callers can take through history. */
  datatype Action = Go(view: View) | Back

  function Step(n: Nav, a: Action): (r: Nav)
    ensures Valid(r)
  {
    match a
    case Go(v) => NavigateTo(n, v)
    case Back => GoBack(n)
  }

  /** The state after a run of actions. */
  function Run(n: Nav, actions: seq<Action>): Nav
    decreases |actions|
  {
    if |actions| == 0 then n else Run(Step(n, actions[0]), actions[1..])
  }

  /** Whatever the callers do through `navigateTo` and `goBack`, starting
      from the initial state, the current view is the last history entry. */
  lemma {:induction false} RunValid(n: Nav, actions: seq<Action>)
    requires Valid(n)
    ensures Valid(Run(n, actions))
    decreases |actions|
  {
    if |actions| > 0 {
      RunValid(Step(n, actions[0]), actions[1..]);
    }
  }

  /** `setCurrentView` can break the invariant: after it, the current view
      need not be the last history entry. */
  lemma SetCurrentViewBreaksValid()
    ensures Valid(Initial) && !Valid(SetCurrentView(Initial, Auth))
  {
  }
}
