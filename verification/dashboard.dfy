/** The dashboard page itself: the theme, which widgets are shown, the
    daily background image, and the surfaces the command palette can open.
    `savedWidgets` is the `enabledWidgets` storage slot, kept decoded. */
module Dashboard {
  import opened Options
  import opened Text
  import opened Store

  const ThemeSlot: string := "theme"
  const BackgroundSlot: string := "dailyBackground"
  const BackgroundDateSlot: string := "backgroundDate"

  /** The eleven widgets the page can show. */
  const WidgetNames: seq<string> := [
    "clock", "weather", "todo", "notes", "quote", "news",
    "quickLinks", "pomodoro", "musicPlayer", "moodTracker", "bookmarks"
  ]

  datatype App = App(
    theme: string,
    widgets: map<string, bool>,
    savedWidgets: Option<map<string, bool>>,
    background: string,
    store: Store,
    assistantOpen: bool,
    settingsShown: bool,
    tabs: seq<string>)

  /** Every widget shown. */
  function DefaultWidgets(): (m: map<string, bool>)
    ensures |WidgetNames| == 11
    ensures forall w :: w in m <==> w in WidgetNames
    ensures forall w :: w in m ==> m[w]
  {
    map w | w in WidgetNames :: true
  }

  /** The theme on mount: the stored one, or dark when none (or an empty
      one) is stored. */
  function LoadTheme(store: Store): (t: string)
    ensures t != ""
    ensures ThemeSlot !in store || store[ThemeSlot] == "" ==> t == "dark"
    ensures ThemeSlot in store && store[ThemeSlot] != "" ==> t == store[ThemeSlot]
  {
    OrElse(Get(store, ThemeSlot), "dark")
  }

  /** The widget map on mount: the stored one if any, otherwise all shown. */
  function LoadWidgets(saved: Option<map<string, bool>>): (m: map<string, bool>)
    ensures saved.Some? ==> m == saved.value
    ensures saved.None? ==> m == DefaultWidgets()
  {
    saved.GetOr(DefaultWidgets())
  }

  /** Whether a widget is shown: JavaScript's truthiness of `widgets[w]`,
      false for a name not in the map. */
  predicate Enabled(m: map<string, bool>, w: string) {
    w in m && m[w]
  }

  /** `toggleWidget(w)`: the entry for `w` becomes the negation of its
      truthiness (an absent entry becomes true); every other entry is kept. */
  function ToggleWidget(m: map<string, bool>, w: string): (r: map<string, bool>)
    ensures r.Keys == m.Keys + {w}
    ensures Enabled(r, w) == !Enabled(m, w)
    ensures w !in m ==> r[w]
    ensures forall k :: k in m && k != w ==> r[k] == m[k]
  {
    m[w := !Enabled(m, w)]
  }

  /** Toggling a widget that has an entry twice restores the map. */
  lemma ToggleWidgetTwice(m: map<string, bool>, w: string)
    requires w in m
    ensures ToggleWidget(ToggleWidget(m, w), w) == m
  {
  }

  /** The navigation bar's theme button: dark becomes light, and anything
      else becomes dark. */
  function ToggleTheme(t: string): (r: string)
    ensures r == "light" || r == "dark"
    ensures r == "light" <==> t == "dark"
  {
    if t == "dark" then "light" else "dark"
  }

  /** On the two themes the button is an involution. */
  lemma ToggleThemeTwice(t: string)
    requires t == "light" || t == "dark"
    ensures ToggleTheme(ToggleTheme(t)) == t
  {
  }

  /** Setting the theme, with the effect that stores it. */
  function SetTheme(app: App, t: string): (r: App)
    ensures r.theme == t
    ensures Get(r.store, ThemeSlot) == Some(t)
    ensures r.widgets == app.widgets && r.background == app.background
    ensures r.store.Keys == app.store.Keys + {ThemeSlot}
    ensures forall k :: k in app.store && k != ThemeSlot ==> r.store[k] == app.store[k]
    ensures r.(theme := app.theme, store := app.store) == app
  {
    app.(theme := t, store := Set(app.store, ThemeSlot, t))
  }

  /** Setting the widget map, with the effect that stores it. */
  function SetWidgets(app: App, m: map<string, bool>): (r: App)
    ensures r.widgets == m && r.savedWidgets == Some(m)
    ensures r.theme == app.theme && r.store == app.store
    ensures r.(widgets := app.widgets, savedWidgets := app.savedWidgets) == app
  {
    app.(widgets := m, savedWidgets := Some(m))
  }

  /** The page on mount, before the background has loaded: the stored (or
      default) theme and widgets, both written back by their effects. */
  function Init(store: Store, savedWidgets: Option<map<string, bool>>): (app: App)
    ensures app.theme == LoadTheme(store) && app.widgets == LoadWidgets(savedWidgets)
    ensures store == map[] && savedWidgets.None? ==>
      app.theme == "dark" && forall w :: w in WidgetNames ==> Enabled(app.widgets, w)
    ensures app.background == "" && !app.assistantOpen && !app.settingsShown && app.tabs == []
    ensures app.store == store[ThemeSlot := app.theme] && app.savedWidgets == Some(app.widgets)
  {
    var widgets := LoadWidgets(savedWidgets);
    var app := App(LoadTheme(store), widgets, None, "", store, false, false, []);
    SetWidgets(SetTheme(app, app.theme), widgets)
  }

  /** A stored theme comes back on the next mount. */
  lemma ThemeReloads(app: App, t: string, savedWidgets: Option<map<string, bool>>)
    requires t != ""
    ensures Init(SetTheme(app, t).store, savedWidgets).theme == t
  {
  }

  /** A stored widget map comes back on the next mount. */
  lemma WidgetsReload(app: App, w: string, store: Store)
    ensures Init(store, SetWidgets(app, ToggleWidget(app.widgets, w)).savedWidgets).widgets
      == ToggleWidget(app.widgets, w)
  {
  }

  /** How the background request settled: an ok response with an image
      address, a non-ok response, or a thrown error. */
  datatype Fetch = Fetched(url: string) | NotOk | Failed

  /** The result of the background effect: the background shown, the store
      afterwards, and whether a request was made. */
  datatype BackgroundLoad = BackgroundLoad(background: string, store: Store, fetched: bool)

  /** The cache holds a usable image for `today`. */
  predicate CacheValid(store: Store, today: string) {
    BackgroundSlot in store && store[BackgroundSlot] != ""
    && BackgroundDateSlot in store && store[BackgroundDateSlot] == today
  }

  /** The background effect. A non-empty image cached on `today` is shown
      with no request. Otherwise one request is made (its result is
      `result`): an ok response shows the image and caches it together with
      `today`; a failure shows no image and leaves the cache alone, so the
      next mount tries again. */
  function LoadBackground(store: Store, today: string, result: Fetch): (r: BackgroundLoad)
    ensures !r.fetched <==> CacheValid(store, today)
    ensures !r.fetched ==> r.background == store[BackgroundSlot] && r.store == store
    ensures r.fetched && result.Fetched? ==>
      && r.background == result.url
      && Get(r.store, BackgroundSlot) == Some(result.url)
      && Get(r.store, BackgroundDateSlot) == Some(today)
    ensures r.fetched && !result.Fetched? ==> r.background == "" && r.store == store
    ensures r.store.Keys <= store.Keys + {BackgroundSlot, BackgroundDateSlot}
    ensures forall k :: k in store && k != BackgroundSlot && k != BackgroundDateSlot ==>
      k in r.store && r.store[k] == store[k]
  {
    var cached := Get(store, BackgroundSlot);
    var cachedDate := Get(store, BackgroundDateSlot);
    if cached.Some? && cached.value != "" && cachedDate == Some(today) then
      BackgroundLoad(cached.value, store, false)
    else
      match result
      case Fetched(url) =>
        BackgroundLoad(url, Set(Set(store, BackgroundSlot, url), BackgroundDateSlot, today), true)
      case _ => BackgroundLoad("", store, true)
  }

  /** A non-empty image fetched today is reused by every later mount the
      same day, with no request, whatever a request would have returned. */
  lemma SameDayReuse(store: Store, today: string, url: string, next: Fetch)
    requires url != ""
    requires LoadBackground(store, today, Fetched(url)).fetched
    ensures var later := LoadBackground(LoadBackground(store, today, Fetched(url)).store, today, next);
      !later.fetched && later.background == url
  {
  }

  /** An image fetched today is not used on another day: a new request is
      made. */
  lemma NextDayRefetches(store: Store, today: string, tomorrow: string, url: string, next: Fetch)
    requires tomorrow != today
    requires LoadBackground(store, today, Fetched(url)).fetched
    ensures LoadBackground(LoadBackground(store, today, Fetched(url)).store, tomorrow, next).fetched
  {
  }

  /** After a failed request the next mount the same day tries again. */
  lemma FailureRetries(store: Store, today: string, next: Fetch)
    requires !CacheValid(store, today)
    ensures LoadBackground(LoadBackground(store, today, Failed).store, today, next).fetched
    ensures LoadBackground(LoadBackground(store, today, NotOk).store, today, next).fetched
  {
  }
}
