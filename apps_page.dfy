/** The apps directory (web/src/app/apps/page.tsx): a constant list of apps
    narrowed by the search box; the category tabs only highlight. */
module AppsPage {
  import opened Seqs
  import opened Text

  /** One entry of `apps` (its icon and colour are left out). */
  datatype App = App(name: string, description: string)

  const Apps: seq<App> := [
    App("Adobe Photoshop", "Edit, stylize, refine images"),
    App("Airtable", "Add structured data to ChatGPT"),
    App("AllTrails", "Discover your next hike"),
    App("Apple Music", "Build playlists and find music"),
    App("Booking.com", "Find hotels, homes and more"),
    App("Canva", "Search, create, edit designs"),
    App("Expedia", "Plan trips, flights and hotels"),
    App("Figma", "Make diagrams, slides, assets"),
    App("Instacart", "Groceries and more delivered"),
    App("Lovable", "Build apps and websites"),
    App("OpenTable", "Find restaurant reservations"),
    App("Replit", "Turn your ideas into real apps"),
    App("Spotify", "Music and podcasts for you"),
    App("Target", "Style, decor, beauty, and more"),
    App("Tripadvisor", "Book top-rated hotels"),
    App("Zillow", "Buy, rent, and sell homes")
  ]

  const Tabs: seq<string> := ["Featured", "Lifestyle", "Productivity"]

  /** The filter's test: the lowered query occurs in the lowered name or the
      lowered description. */
  predicate AppMatches(query: string, app: App)
  {
    Contains(LowerStr(app.name), LowerStr(query)) || Contains(LowerStr(app.description), LowerStr(query))
  }

  function AppMatchPred(query: string): App -> bool
  {
    (app: App) => AppMatches(query, app)
  }

  /** `filteredApps`: the apps that match the query, in the listed order. */
  function FilteredApps(apps: seq<App>, query: string): (r: seq<App>)
    ensures forall a :: a in r <==> a in apps && AppMatches(query, a)
    ensures forall a :: multiset(r)[a] == if AppMatches(query, a) then multiset(apps)[a] else 0
    ensures IsSubsequence(r, apps)
  {
    FilterMembers(apps, AppMatchPred(query));
    FilterMultiset(apps, AppMatchPred(query));
    FilterIsSubsequence(apps, AppMatchPred(query));
    Filter(apps, AppMatchPred(query))
  }

  /** An empty search lists every app, in order. */
  lemma EmptyQueryListsAll(apps: seq<App>)
    ensures FilteredApps(apps, "") == apps
  {
    forall i | 0 <= i < |apps|
      ensures AppMatchPred("")(apps[i])
    {
      ContainsEmpty(LowerStr(apps[i].name));
    }
    FilterKeepsAll(apps, AppMatchPred(""));
  }

  /** The search ignores letter case: queries that lower to the same text
      list the same apps. */
  lemma QueryCaseInsensitive(apps: seq<App>, q1: string, q2: string)
    requires LowerStr(q1) == LowerStr(q2)
    ensures FilteredApps(apps, q1) == FilteredApps(apps, q2)
  {
    FilterAgree(apps, AppMatchPred(q1), AppMatchPred(q2));
  }

  /** The grid shows the filtered apps whichever tab is active. */
  function ListedApps(query: string, activeTab: string): (r: seq<App>)
    ensures forall a :: a in r <==> a in Apps && AppMatches(query, a)
  {
    FilteredApps(Apps, query)
  }

  lemma ListedAppsIgnoreTab(query: string, tab1: string, tab2: string)
    ensures ListedApps(query, tab1) == ListedApps(query, tab2)
  {
  }
}
