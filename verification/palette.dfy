/** The command palette: a dialog opened from the keyboard that lists every
    global command, grouped by category, and runs the one chosen. Matching
    the typed query against labels is done by the dialog library and is not
    part of this model. */
module Palette {
  import opened Options
  import opened Text
  import opened Lists
  import opened Dashboard

  /** What a command does to the page. */
  datatype Action =
    | ThemeAction(theme: string)
    | WidgetAction(widget: string)
    | SettingsAction
    | FocusAction
    | AssistantAction
    | TabAction(url: string)

  datatype Command = Command(id: string, title: string, category: string, keywords: seq<string>, action: Action)

  /** A key press as the document listener sees it: the key, the modifier
      flags and the tag name of the focused element. */
  datatype KeyEvent = KeyEvent(key: string, ctrl: bool, meta: bool, targetTag: string)

  predicate IsTextEntry(tag: string) {
    tag == "INPUT" || tag == "TEXTAREA"
  }

  /** The document's key listener. Ctrl+K or Cmd+K opens a closed palette
      and closes an open one, wherever the focus is. A bare `/` opens the
      palette, never closes it, and is ignored while typing into a text
      field. Every other key leaves the palette as it is. */
  function OnKeyDown(open: bool, e: KeyEvent): (r: bool)
    ensures e.key == "k" && (e.ctrl || e.meta) ==> r == !open
    ensures e.key == "/" && !e.ctrl && !e.meta ==> r == (open || !IsTextEntry(e.targetTag))
    ensures e.key == "/" ==> (open ==> r)
    ensures !(e.key == "k" && (e.ctrl || e.meta)) && !(e.key == "/" && !e.ctrl && !e.meta) ==> r == open
  {
    var afterK := if e.key == "k" && (e.meta || e.ctrl) then !open else open;
    if e.key == "/" && !e.meta && !e.ctrl && !IsTextEntry(e.targetTag) then true else afterK
  }

  /** The shortcut pressed twice leaves the palette as it was. */
  lemma ShortcutTwice(open: bool, e: KeyEvent)
    requires e.key == "k" && (e.ctrl || e.meta)
    ensures OnKeyDown(OnKeyDown(open, e), e) == open
  {
  }

  /** One row of the widget part of the catalogue: the command id, the
      widget's key in the widget map and its display title. */
  datatype WidgetEntry = WidgetEntry(id: string, widget: string, name: string)

  /** The widgets the palette can show or hide, in order. */
  function WidgetEntries(): (es: seq<WidgetEntry>)
    ensures |es| == 10
  {
    [
      WidgetEntry("toggle-clock", "clock", "Clock"),
      WidgetEntry("toggle-weather", "weather", "Weather"),
      WidgetEntry("toggle-todo", "todo", "Todo"),
      WidgetEntry("toggle-notes", "notes", "Notes"),
      WidgetEntry("toggle-quote", "quote", "Quote"),
      WidgetEntry("toggle-news", "news", "News"),
      WidgetEntry("toggle-quicklinks", "quickLinks", "Quick Links"),
      WidgetEntry("toggle-pomodoro", "pomodoro", "Pomodoro"),
      WidgetEntry("toggle-music", "musicPlayer", "Music Player"),
      WidgetEntry("toggle-mood", "moodTracker", "Mood Tracker")
    ]
  }

  /** The label of a widget command, derived from the current widget map. */
  function WidgetLabel(m: map<string, bool>, e: WidgetEntry): (l: string)
    ensures StartsWith(l, "Hide") <==> Enabled(m, e.widget)
    ensures StartsWith(l, "Show") <==> !Enabled(m, e.widget)
  {
    var verb := if Enabled(m, e.widget) then "Hide" else "Show";
    var rest := " " + e.name + " Widget";
    assert (verb + rest)[..4] == verb;
    verb + rest
  }

  function ThemeCommands(): (cs: seq<Command>)
    ensures |cs| == 2
    ensures forall i :: 0 <= i < |cs| ==> cs[i].category == "Theme"
  {
    [
      Command("theme-light", "Switch to Light Theme", "Theme", ["light", "bright", "white"], ThemeAction("light")),
      Command("theme-dark", "Switch to Dark Theme", "Theme", ["dark", "night", "black"], ThemeAction("dark"))
    ]
  }

  function WidgetCommands(m: map<string, bool>): (cs: seq<Command>)
    ensures |cs| == 10
    ensures forall i :: 0 <= i < |cs| ==> cs[i].category == "Widgets"
    ensures forall i :: 0 <= i < |cs| ==> cs[i].action == WidgetAction(WidgetEntries()[i].widget)
    ensures forall i :: 0 <= i < |cs| ==> cs[i].id == WidgetEntries()[i].id
    ensures forall i :: 0 <= i < |cs| ==> cs[i].title == WidgetLabel(m, WidgetEntries()[i])
  {
    var es := WidgetEntries();
    seq(|es|, i requires 0 <= i < |es| =>
      Command(es[i].id, WidgetLabel(m, es[i]), "Widgets", [], WidgetAction(es[i].widget)))
  }

  function ActionCommands(): (cs: seq<Command>)
    ensures |cs| == 3
    ensures forall i :: 0 <= i < |cs| ==> cs[i].category == "Actions"
  {
    [
      Command("open-settings", "Open Settings", "Actions", ["settings", "preferences", "config"], SettingsAction),
      Command("focus-mode", "Toggle Focus Mode", "Actions", ["focus", "distraction", "minimal"], FocusAction),
      Command("open-ai", "Open AI Assistant", "Actions", ["ai", "assistant", "chat", "help"], AssistantAction)
    ]
  }

  function LinkCommands(): (cs: seq<Command>)
    ensures |cs| == 3
    ensures forall i :: 0 <= i < |cs| ==> cs[i].category == "Quick Links"
  {
    [
      Command("open-gmail", "Open Gmail", "Quick Links", ["email", "mail", "google"], TabAction("https://gmail.com")),
      Command("open-github", "Open GitHub", "Quick Links", ["code", "repository", "git"], TabAction("https://github.com")),
      Command("open-calendar", "Open Google Calendar", "Quick Links", ["calendar", "schedule", "events"], TabAction("https://calendar.google.com"))
    ]
  }

  /** The whole catalogue, rebuilt from the widget map on every render. */
  function Commands(m: map<string, bool>): (cs: seq<Command>)
    ensures |cs| == 18
  {
    ThemeCommands() + WidgetCommands(m) + ActionCommands() + LinkCommands()
  }

  /** Every widget command is labelled "Hide ..." when its widget is shown
      and "Show ..." when it is not. */
  lemma WidgetLabelsFollowState(m: map<string, bool>)
    ensures forall i :: 0 <= i < |Commands(m)| && Commands(m)[i].action.WidgetAction? ==>
      && (StartsWith(Commands(m)[i].title, "Hide") <==> Enabled(m, Commands(m)[i].action.widget))
      && (StartsWith(Commands(m)[i].title, "Show") <==> !Enabled(m, Commands(m)[i].action.widget))
  {
    var cs := Commands(m);
    var ws := WidgetCommands(m);
    forall i | 0 <= i < |cs| && cs[i].action.WidgetAction?
      ensures StartsWith(cs[i].title, "Hide") <==> Enabled(m, cs[i].action.widget)
      ensures StartsWith(cs[i].title, "Show") <==> !Enabled(m, cs[i].action.widget)
    {
      assert 2 <= i < 12;
      assert cs[i] == ws[i - 2];
    }
  }

  /** The ids of a list of commands, in order. */
  function Ids(cs: seq<Command>): (r: seq<string>)
    ensures |r| == |cs|
    ensures forall i :: 0 <= i < |cs| ==> r[i] == cs[i].id
  {
    seq(|cs|, i requires 0 <= i < |cs| => cs[i].id)
  }

  lemma IdsAppend(a: seq<Command>, b: seq<Command>)
    ensures Ids(a + b) == Ids(a) + Ids(b)
  {
  }

  lemma WidgetIds(m: map<string, bool>)
    ensures Ids(WidgetCommands(m)) == WidgetIdList
  {
    var ws := WidgetCommands(m);
    forall i | 0 <= i < |ws|
      ensures ws[i].id == WidgetEntries()[i].id
    {
    }
  }

  lemma ThemeIds()
    ensures Ids(ThemeCommands()) == ThemeIdList
  {
  }

  lemma ActionIds()
    ensures Ids(ActionCommands()) == ActionIdList
  {
  }

  lemma LinkIds()
    ensures Ids(LinkCommands()) == LinkIdList
  {
  }

  /** The catalogue's ids, in order. */
  lemma CatalogueIds(m: map<string, bool>)
    ensures Ids(Commands(m)) == CatalogueIdList
  {
    var t, w, a, l := ThemeCommands(), WidgetCommands(m), ActionCommands(), LinkCommands();
    IdsAppend(t, w);
    IdsAppend(t + w, a);
    IdsAppend(t + w + a, l);
    assert Commands(m) == t + w + a + l;
    ThemeIds();
    WidgetIds(m);
    ActionIds();
    LinkIds();
  }

  const ThemeIdList: seq<string> := ["theme-light", "theme-dark"]
  const WidgetIdList: seq<string> := [
    "toggle-clock", "toggle-weather", "toggle-todo", "toggle-notes", "toggle-quote",
    "toggle-news", "toggle-quicklinks", "toggle-pomodoro", "toggle-music", "toggle-mood"]
  const ActionIdList: seq<string> := ["open-settings", "focus-mode", "open-ai"]
  const LinkIdList: seq<string> := ["open-gmail", "open-github", "open-calendar"]
  const CatalogueIdList: seq<string> := ThemeIdList + WidgetIdList + ActionIdList + LinkIdList

  /** A cheap fingerprint of a non-empty id: its length and last character.
      Ids with different fingerprints differ. */
  function Fingerprint(id: string): int
    requires |id| > 0
  {
    |id| * 0x11_0000 + id[|id| - 1] as int
  }

  /** fs lists the fingerprints of ids, in order. */
  predicate Matches(ids: seq<string>, fs: seq<int>)
  {
    |ids| == |fs| && forall i :: 0 <= i < |ids| ==> |ids[i]| > 0 && Fingerprint(ids[i]) == fs[i]
  }

  lemma MatchesAppend(a: seq<string>, fa: seq<int>, b: seq<string>, fb: seq<int>)
    requires Matches(a, fa) && Matches(b, fb)
    ensures Matches(a + b, fa + fb)
  {
    forall i | 0 <= i < |a + b|
      ensures |(a + b)[i]| > 0 && Fingerprint((a + b)[i]) == (fa + fb)[i]
    {
      if i < |a| {
        assert (a + b)[i] == a[i] && (fa + fb)[i] == fa[i];
      } else {
        assert (a + b)[i] == b[i - |a|] && (fa + fb)[i] == fb[i - |a|];
      }
    }
  }

  const ThemePrints: seq<int> := [11 * 0x11_0000 + 't' as int, 10 * 0x11_0000 + 'k' as int]
  const WidgetPrints: seq<int> := [
    12 * 0x11_0000 + 'k' as int, 14 * 0x11_0000 + 'r' as int, 11 * 0x11_0000 + 'o' as int,
    12 * 0x11_0000 + 's' as int, 12 * 0x11_0000 + 'e' as int, 11 * 0x11_0000 + 's' as int,
    17 * 0x11_0000 + 's' as int, 15 * 0x11_0000 + 'o' as int, 12 * 0x11_0000 + 'c' as int,
    11 * 0x11_0000 + 'd' as int]
  const ActionPrints: seq<int> := [13 * 0x11_0000 + 's' as int, 10 * 0x11_0000 + 'e' as int, 7 * 0x11_0000 + 'i' as int]
  const LinkPrints: seq<int> := [10 * 0x11_0000 + 'l' as int, 11 * 0x11_0000 + 'b' as int, 13 * 0x11_0000 + 'r' as int]

  lemma ThemeMatches() ensures Matches(ThemeIdList, ThemePrints) { }
  lemma WidgetMatches() ensures Matches(WidgetIdList, WidgetPrints) { }
  lemma ActionMatches() ensures Matches(ActionIdList, ActionPrints) { }
  lemma LinkMatches() ensures Matches(LinkIdList, LinkPrints) { }

  lemma PrintsDistinct()
    ensures var fs := ThemePrints + WidgetPrints + ActionPrints + LinkPrints;
      forall i, j :: 0 <= i < j < |fs| ==> fs[i] != fs[j]
  {
    var fs := ThemePrints + WidgetPrints + ActionPrints + LinkPrints;
    assert fs == [
      11 * 0x11_0000 + 't' as int, 10 * 0x11_0000 + 'k' as int,
      12 * 0x11_0000 + 'k' as int, 14 * 0x11_0000 + 'r' as int, 11 * 0x11_0000 + 'o' as int,
      12 * 0x11_0000 + 's' as int, 12 * 0x11_0000 + 'e' as int, 11 * 0x11_0000 + 's' as int,
      17 * 0x11_0000 + 's' as int, 15 * 0x11_0000 + 'o' as int, 12 * 0x11_0000 + 'c' as int,
      11 * 0x11_0000 + 'd' as int,
      13 * 0x11_0000 + 's' as int, 10 * 0x11_0000 + 'e' as int, 7 * 0x11_0000 + 'i' as int,
      10 * 0x11_0000 + 'l' as int, 11 * 0x11_0000 + 'b' as int, 13 * 0x11_0000 + 'r' as int
    ];
  }

  /** The catalogue's ids have pairwise different fingerprints. */
  lemma FingerprintsDistinct()
    ensures forall i, j :: 0 <= i < j < |CatalogueIdList| ==> CatalogueIdList[i] != CatalogueIdList[j]
  {
    ThemeMatches();
    WidgetMatches();
    ActionMatches();
    LinkMatches();
    MatchesAppend(ThemeIdList, ThemePrints, WidgetIdList, WidgetPrints);
    MatchesAppend(ThemeIdList + WidgetIdList, ThemePrints + WidgetPrints, ActionIdList, ActionPrints);
    MatchesAppend(ThemeIdList + WidgetIdList + ActionIdList, ThemePrints + WidgetPrints + ActionPrints,
      LinkIdList, LinkPrints);
    PrintsDistinct();
  }

  /** No two commands share an id. */
  lemma IdsDistinct(m: map<string, bool>)
    ensures forall i, j :: 0 <= i < j < |Commands(m)| ==> Commands(m)[i].id != Commands(m)[j].id
  {
    CatalogueIds(m);
    FingerprintsDistinct();
  }

  /** What running an action does to the page. The page supplies no focus
      mode or settings callback, so focus mode does nothing and the settings
      command only slides the settings panel in. */
  function Run(app: App, a: Action): (r: App)
    ensures a.ThemeAction? ==> r == SetTheme(app, a.theme)
    ensures a.WidgetAction? ==> r == SetWidgets(app, ToggleWidget(app.widgets, a.widget))
    ensures a.SettingsAction? ==> r == app.(settingsShown := true)
    ensures a.FocusAction? ==> r == app
    ensures a.AssistantAction? ==> r == app.(assistantOpen := true)
    ensures a.TabAction? ==> r == app.(tabs := app.tabs + [a.url])
  {
    match a
    case ThemeAction(t) => SetTheme(app, t)
    case WidgetAction(w) => SetWidgets(app, ToggleWidget(app.widgets, w))
    case SettingsAction => app.(settingsShown := true)
    case FocusAction => app
    case AssistantAction => app.(assistantOpen := true)
    case TabAction(url) => app.(tabs := app.tabs + [url])
  }

  /** The page after a command ran, and whether the palette is open. */
  datatype Executed = Executed(app: App, open: bool)

  /** Choosing a command runs its action once and then closes the palette. */
  function Execute(app: App, c: Command): (r: Executed)
    ensures !r.open
    ensures r.app == Run(app, c.action)
  {
    Executed(Run(app, c.action), false)
  }

  /** The theme commands set a fixed theme, so running one twice is running
      it once. */
  lemma ThemeCommandIdempotent(app: App, i: nat)
    requires i < |ThemeCommands()|
    ensures var a := ThemeCommands()[i].action;
      Run(Run(app, a), a) == Run(app, a)
  {
  }

  /** Executing a widget command flips that widget exactly once: its label
      on the next render says the opposite of what it said before. */
  lemma WidgetCommandFlipsLabel(app: App, i: nat)
    requires i < |WidgetEntries()|
    ensures var e := WidgetEntries()[i];
      var after := Execute(app, WidgetCommands(app.widgets)[i]).app;
      && Enabled(after.widgets, e.widget) == !Enabled(app.widgets, e.widget)
      && (StartsWith(WidgetLabel(after.widgets, e), "Show") <==> StartsWith(WidgetLabel(app.widgets, e), "Hide"))
  {
  }

  /** Opening the palette, picking "Show Todo Widget" while the to-do widget
      is hidden, shows the widget and closes the palette. */
  lemma ShowTodoScenario(app: App)
    requires !Enabled(app.widgets, "todo")
    ensures var c := Commands(app.widgets)[4];
      && c.id == "toggle-todo"
      && c.title == "Show Todo Widget"
      && Enabled(Execute(app, c).app.widgets, "todo")
      && !Execute(app, c).open
  {
    TodoCommand(app.widgets);
    var c := Commands(app.widgets)[4];
    assert Execute(app, c).app.widgets == ToggleWidget(app.widgets, "todo");
  }

  /** The fifth command of the catalogue is the to-do widget's toggle. */
  lemma TodoCommand(m: map<string, bool>)
    ensures Commands(m)[4] == WidgetCommands(m)[2]
    ensures Commands(m)[4].id == "toggle-todo" && Commands(m)[4].action == WidgetAction("todo")
    ensures !Enabled(m, "todo") ==> Commands(m)[4].title == "Show Todo Widget"
  {
    var e := WidgetEntries()[2];
    assert e == WidgetEntry("toggle-todo", "todo", "Todo");
    assert Commands(m)[4] == WidgetCommands(m)[2];
    if !Enabled(m, "todo") {
      ShowLabel(m, e);
    }
  }

  lemma ShowLabel(m: map<string, bool>, e: WidgetEntry)
    requires e == WidgetEntry("toggle-todo", "todo", "Todo") && !Enabled(m, "todo")
    ensures WidgetLabel(m, e) == "Show Todo Widget"
  {
    assert WidgetLabel(m, e) == "Show" + " " + "Todo" + " Widget";
  }

  /** A heading of the palette and the commands listed under it. */
  datatype Group = Group(category: string, commands: seq<Command>)

  function CommandCategory(c: Command): string {
    c.category
  }

  /** `acc[category]`: the position of the group for a category, if any. */
  function FindGroup(gs: seq<Group>, category: string): (r: Option<nat>)
    ensures r.Some? ==> r.value < |gs| && gs[r.value].category == category
    ensures r.Some? ==> forall j :: 0 <= j < r.value ==> gs[j].category != category
    ensures r.None? ==> forall j :: 0 <= j < |gs| ==> gs[j].category != category
  {
    FirstIndex(gs, (g: Group) => g.category == category)
  }

  /** No group before position `i` has the category. */
  predicate NoneBefore(gs: seq<Group>, i: int, category: string)
    requires i <= |gs|
  {
    forall j :: 0 <= j < i ==> gs[j].category != category
  }

  /** No two groups share a heading. */
  predicate DistinctHeadings(gs: seq<Group>) {
    forall i, j :: 0 <= i < j < |gs| ==> gs[i].category != gs[j].category
  }

  /** Every group lists at least one command. */
  predicate NoEmptyGroup(gs: seq<Group>) {
    forall i :: 0 <= i < |gs| ==> gs[i].commands != []
  }

  /** One step of the `reduce`: push the command onto its category's group,
      creating the group at the end when the category is new. */
  function AddToGroups(gs: seq<Group>, c: Command): (r: seq<Group>)
    ensures |gs| <= |r| <= |gs| + 1
    ensures forall i :: 0 <= i < |gs| ==> r[i].category == gs[i].category && gs[i].commands <= r[i].commands
    ensures forall i :: 0 <= i < |gs| && gs[i].category != c.category ==> r[i] == gs[i]
    ensures forall i :: 0 <= i < |gs| && gs[i].category == c.category && NoneBefore(gs, i, c.category) ==>
      r[i].commands == gs[i].commands + [c]
    ensures |r| == |gs| + 1 ==> r[|gs|] == Group(c.category, [c]) && NoneBefore(gs, |gs|, c.category)
  {
    match FindGroup(gs, c.category)
    case Some(i) => gs[i := Group(c.category, gs[i].commands + [c])]
    case None => gs + [Group(c.category, [c])]
  }

  /** `commands.reduce(...)` into groups, listed in the order the categories
      were inserted. */
  function GroupByCategory(cs: seq<Command>): (r: seq<Group>)
    ensures |r| <= |cs|
    ensures DistinctHeadings(r) && NoEmptyGroup(r)
    decreases |cs|
  {
    if |cs| == 0 then [] else AddToGroups(GroupByCategory(cs[..|cs| - 1]), cs[|cs| - 1])
  }

  function Categories(cs: seq<Command>): (r: seq<string>)
    ensures |r| == |cs|
    ensures forall i :: 0 <= i < |cs| ==> r[i] == cs[i].category
  {
    seq(|cs|, i requires 0 <= i < |cs| => cs[i].category)
  }

  /** The distinct values of `xs` in the order they first appear. */
  function FirstAppearances(xs: seq<string>): (r: seq<string>)
    ensures forall i, j :: 0 <= i < j < |r| ==> r[i] != r[j]
    decreases |xs|
  {
    if |xs| == 0 then []
    else
      var d := FirstAppearances(xs[..|xs| - 1]);
      if xs[|xs| - 1] in d then d else d + [xs[|xs| - 1]]
  }

  /** Nothing is lost and nothing is invented. */
  lemma {:induction false} FirstAppearancesMembers(xs: seq<string>, x: string)
    ensures x in FirstAppearances(xs) <==> x in xs
    decreases |xs|
  {
    if |xs| > 0 {
      FirstAppearancesMembers(xs[..|xs| - 1], x);
      assert xs == xs[..|xs| - 1] + [xs[|xs| - 1]];
    }
  }

  /** The grouping the palette should show, stated directly: one group per
      category in order of first appearance, holding exactly that category's
      commands in registration order. */
  function GroupsByDefinition(cs: seq<Command>): (gs: seq<Group>)
    ensures |gs| == |FirstAppearances(Categories(cs))|
    ensures forall i :: 0 <= i < |gs| ==> gs[i].category == FirstAppearances(Categories(cs))[i]
  {
    var cats := FirstAppearances(Categories(cs));
    seq(|cats|, i requires 0 <= i < |cats| =>
      Group(cats[i], Filter(cs, KeyIs(CommandCategory, cats[i]))))
  }

  /** The categories of a catalogue grown by one command. */
  lemma CategoriesSnoc(p: seq<Command>, x: Command)
    ensures FirstAppearances(Categories(p + [x]))
      == if x.category in FirstAppearances(Categories(p))
         then FirstAppearances(Categories(p))
         else FirstAppearances(Categories(p)) + [x.category]
  {
    var xs := Categories(p + [x]);
    assert xs[..|xs| - 1] == Categories(p);
  }

  /** Filtering a catalogue grown by one command. */
  lemma FilterSnoc(p: seq<Command>, x: Command, c: string)
    ensures Filter(p + [x], KeyIs(CommandCategory, c))
      == Filter(p, KeyIs(CommandCategory, c)) + (if x.category == c then [x] else [])
  {
    FilterAppend(p, [x], KeyIs(CommandCategory, c));
    FilterSingleton(x, KeyIs(CommandCategory, c));
    KeyIsApply(CommandCategory, c, x);
  }

  /** A command of a known category joins the end of that group. */
  lemma AddToKnownGroup(p: seq<Command>, x: Command)
    requires x.category in FirstAppearances(Categories(p))
    ensures AddToGroups(GroupsByDefinition(p), x) == GroupsByDefinition(p + [x])
  {
    var gs := GroupsByDefinition(p);
    var spec := GroupsByDefinition(p + [x]);
    CategoriesSnoc(p, x);
    var i := FindGroup(gs, x.category).value;
    AddToGroupsAt(gs, x, i);
    var r := AddToGroups(gs, x);
    forall j | 0 <= j < |spec|
      ensures spec[j] == r[j]
    {
      KnownGroupEntry(p, x, j);
    }
  }

  /** Where `AddToGroups` puts a command of a category that has a group. */
  lemma AddToGroupsAt(gs: seq<Group>, c: Command, i: nat)
    requires FindGroup(gs, c.category) == Some(i)
    ensures AddToGroups(gs, c) == gs[i := Group(c.category, gs[i].commands + [c])]
  {
  }

  /** Entry `j` of the reference grouping after one more command of a known
      category: that category's group gains the command, the others stay. */
  lemma KnownGroupEntry(p: seq<Command>, x: Command, j: nat)
    requires x.category in FirstAppearances(Categories(p))
    requires j < |FirstAppearances(Categories(p))|
    ensures j < |GroupsByDefinition(p + [x])|
    ensures GroupsByDefinition(p + [x])[j]
      == if GroupsByDefinition(p)[j].category == x.category
         then Group(x.category, GroupsByDefinition(p)[j].commands + [x])
         else GroupsByDefinition(p)[j]
  {
    var cats := FirstAppearances(Categories(p));
    CategoriesSnoc(p, x);
    FilterSnoc(p, x, cats[j]);
  }

  /** A category that never occurred selects nothing. */
  lemma AbsentCategory(p: seq<Command>, c: string)
    requires c !in FirstAppearances(Categories(p))
    ensures Filter(p, KeyIs(CommandCategory, c)) == []
  {
    var cats := Categories(p);
    FirstAppearancesMembers(cats, c);
    forall k | 0 <= k < |p|
      ensures !KeyIs(CommandCategory, c)(p[k])
    {
      assert cats[k] == p[k].category;
      assert cats[k] in cats;
      KeyIsApply(CommandCategory, c, p[k]);
    }
    FilterNone(p, KeyIs(CommandCategory, c));
  }

  /** A command of a new category opens a group of its own at the end. */
  lemma AddToNewGroup(p: seq<Command>, x: Command)
    requires x.category !in FirstAppearances(Categories(p))
    ensures AddToGroups(GroupsByDefinition(p), x) == GroupsByDefinition(p + [x])
  {
    var cats := FirstAppearances(Categories(p));
    var gs := GroupsByDefinition(p);
    var spec := GroupsByDefinition(p + [x]);
    NoGroupYet(p, x.category);
    AddToGroupsNew(gs, x);
    var r := AddToGroups(gs, x);
    NewGroupLast(p, x);
    forall j | 0 <= j < |spec|
      ensures spec[j] == r[j]
    {
      if j < |cats| {
        NewGroupEntry(p, x, j);
      }
    }
  }

  /** A category that never occurred has no group. */
  lemma NoGroupYet(p: seq<Command>, c: string)
    requires c !in FirstAppearances(Categories(p))
    ensures FindGroup(GroupsByDefinition(p), c).None?
  {
    var gs := GroupsByDefinition(p);
    var cats := FirstAppearances(Categories(p));
    forall j | 0 <= j < |gs|
      ensures gs[j].category != c
    {
      assert gs[j].category == cats[j] && cats[j] in cats;
    }
  }

  /** Where `AddToGroups` puts a command of a category with no group yet. */
  lemma AddToGroupsNew(gs: seq<Group>, c: Command)
    requires FindGroup(gs, c.category).None?
    ensures AddToGroups(gs, c) == gs + [Group(c.category, [c])]
  {
  }

  /** One more command of a new category leaves the earlier groups alone. */
  lemma NewGroupEntry(p: seq<Command>, x: Command, j: nat)
    requires x.category !in FirstAppearances(Categories(p))
    requires j < |FirstAppearances(Categories(p))|
    ensures j < |GroupsByDefinition(p + [x])|
    ensures GroupsByDefinition(p + [x])[j] == GroupsByDefinition(p)[j]
  {
    var cats := FirstAppearances(Categories(p));
    CategoriesSnoc(p, x);
    assert cats[j] in cats;
    FilterSnoc(p, x, cats[j]);
  }

  /** ... and adds a group holding just that command. */
  lemma NewGroupLast(p: seq<Command>, x: Command)
    requires x.category !in FirstAppearances(Categories(p))
    ensures |GroupsByDefinition(p + [x])| == |FirstAppearances(Categories(p))| + 1
    ensures GroupsByDefinition(p + [x])[|FirstAppearances(Categories(p))|] == Group(x.category, [x])
  {
    CategoriesSnoc(p, x);
    AbsentCategory(p, x.category);
    FilterSnoc(p, x, x.category);
  }

  /** The `reduce` computes exactly that grouping. */
  lemma {:induction false} GroupingMatchesDefinition(cs: seq<Command>)
    ensures GroupByCategory(cs) == GroupsByDefinition(cs)
    decreases |cs|
  {
    if |cs| > 0 {
      var p := cs[..|cs| - 1];
      var x := cs[|cs| - 1];
      GroupingMatchesDefinition(p);
      assert GroupByCategory(cs) == AddToGroups(GroupByCategory(p), x);
      DefinitionStep(cs);
    }
  }

  /** One step of the `reduce` takes the reference grouping of a catalogue
      to that of the catalogue grown by one command. */
  lemma DefinitionStep(cs: seq<Command>)
    requires |cs| > 0
    ensures AddToGroups(GroupsByDefinition(cs[..|cs| - 1]), cs[|cs| - 1]) == GroupsByDefinition(cs)
  {
    var p, x := cs[..|cs| - 1], cs[|cs| - 1];
    assert cs == p + [x];
    if x.category in FirstAppearances(Categories(p)) {
      AddToKnownGroup(p, x);
    } else {
      AddToNewGroup(p, x);
    }
  }

  /** A command listed in a group has that group's category. */
  lemma MemberHasGroupCategory(cs: seq<Command>, i: nat, x: Command)
    requires i < |GroupsByDefinition(cs)| && x in GroupsByDefinition(cs)[i].commands
    ensures x.category == GroupsByDefinition(cs)[i].category && x in cs
  {
    var cats := FirstAppearances(Categories(cs));
    var g := GroupsByDefinition(cs)[i];
    assert g == Group(cats[i], Filter(cs, KeyIs(CommandCategory, cats[i])));
    var k :| 0 <= k < |g.commands| && g.commands[k] == x;
    assert KeyIs(CommandCategory, cats[i])(x);
  }

  /** The grouping is a partition: categories are distinct, every command of
      a group belongs to the catalogue and to that group's category, and
      every command of the catalogue sits in exactly one group. */
  lemma GroupingPartitions(cs: seq<Command>)
    ensures forall i, j :: 0 <= i < j < |GroupByCategory(cs)| ==>
      GroupByCategory(cs)[i].category != GroupByCategory(cs)[j].category
    ensures forall i, x :: 0 <= i < |GroupByCategory(cs)| && x in GroupByCategory(cs)[i].commands ==>
      x in cs && x.category == GroupByCategory(cs)[i].category
    ensures forall k :: 0 <= k < |cs| ==>
      exists i :: 0 <= i < |GroupByCategory(cs)| && cs[k] in GroupByCategory(cs)[i].commands
    ensures forall x, i, j ::
      (0 <= i < |GroupByCategory(cs)| && 0 <= j < |GroupByCategory(cs)|
       && x in GroupByCategory(cs)[i].commands && x in GroupByCategory(cs)[j].commands) ==> i == j
  {
    GroupingMatchesDefinition(cs);
    DefinitionPartitions(cs);
  }

  /** The partition facts of the reference grouping. */
  lemma DefinitionPartitions(cs: seq<Command>)
    ensures forall i, x :: 0 <= i < |GroupsByDefinition(cs)| && x in GroupsByDefinition(cs)[i].commands ==>
      x in cs && x.category == GroupsByDefinition(cs)[i].category
    ensures forall k :: 0 <= k < |cs| ==>
      exists i :: 0 <= i < |GroupsByDefinition(cs)| && cs[k] in GroupsByDefinition(cs)[i].commands
    ensures forall x, i, j ::
      (0 <= i < |GroupsByDefinition(cs)| && 0 <= j < |GroupsByDefinition(cs)|
       && x in GroupsByDefinition(cs)[i].commands && x in GroupsByDefinition(cs)[j].commands) ==> i == j
  {
    var gs := GroupsByDefinition(cs);
    forall i, x | 0 <= i < |gs| && x in gs[i].commands
      ensures x in cs && x.category == gs[i].category
    {
      MemberHasGroupCategory(cs, i, x);
    }
    forall k | 0 <= k < |cs|
      ensures exists i :: 0 <= i < |gs| && cs[k] in gs[i].commands
    {
      CommandIsGrouped(cs, k);
    }
    forall x, i, j | 0 <= i < |gs| && 0 <= j < |gs| && x in gs[i].commands && x in gs[j].commands
      ensures i == j
    {
      MemberHasGroupCategory(cs, i, x);
      MemberHasGroupCategory(cs, j, x);
    }
  }

  /** Each command of the catalogue is listed under its category. */
  lemma CommandIsGrouped(cs: seq<Command>, k: nat)
    requires k < |cs|
    ensures exists i :: 0 <= i < |GroupsByDefinition(cs)| && cs[k] in GroupsByDefinition(cs)[i].commands
  {
    var gs := GroupsByDefinition(cs);
    var cats := FirstAppearances(Categories(cs));
    assert Categories(cs)[k] == cs[k].category;
    assert cs[k].category in Categories(cs);
    FirstAppearancesMembers(Categories(cs), cs[k].category);
    var i :| 0 <= i < |cats| && cats[i] == cs[k].category;
    KeyIsApply(CommandCategory, cats[i], cs[k]);
    assert cs[k] in gs[i].commands;
  }

  /** With blocks of one category appended, first appearances grow by that
      category only when it is new. */
  lemma {:induction false} FirstAppearancesBlock(xs: seq<string>, ys: seq<string>, c: string)
    requires |ys| > 0 && forall i :: 0 <= i < |ys| ==> ys[i] == c
    ensures FirstAppearances(xs + ys)
      == if c in FirstAppearances(xs) then FirstAppearances(xs) else FirstAppearances(xs) + [c]
    decreases |ys|
  {
    var zs := xs + ys;
    var front := zs[..|zs| - 1];
    assert zs[|zs| - 1] == c;
    assert FirstAppearances(zs)
      == if c in FirstAppearances(front) then FirstAppearances(front) else FirstAppearances(front) + [c];
    if |ys| > 1 {
      assert front == xs + ys[..|ys| - 1];
      FirstAppearancesBlock(xs, ys[..|ys| - 1], c);
      assert c in FirstAppearances(front);
    } else {
      assert front == xs;
    }
  }

  lemma CategoriesAppend(x: seq<Command>, y: seq<Command>)
    ensures Categories(x + y) == Categories(x) + Categories(y)
  {
  }

  /** The category column of a block of one category. */
  lemma BlockCategories(cs: seq<Command>, c: string)
    requires AllOf(cs, c) && |cs| > 0
    ensures RunOf(Categories(cs), c)
  {
  }

  /** Four non-empty blocks of the four categories, in catalogue order. */
  predicate Blocks(t: seq<Command>, w: seq<Command>, a: seq<Command>, l: seq<Command>) {
    && |t| > 0 && AllOf(t, "Theme")
    && |w| > 0 && AllOf(w, "Widgets")
    && |a| > 0 && AllOf(a, "Actions")
    && |l| > 0 && AllOf(l, "Quick Links")
  }

  /** A non-empty run of one value. */
  predicate RunOf(ys: seq<string>, c: string) {
    |ys| > 0 && forall i :: 0 <= i < |ys| ==> ys[i] == c
  }

  /** A run of a new value adds that value, once, at the end. */
  lemma NewRun(xs: seq<string>, ys: seq<string>, c: string, before: seq<string>)
    requires FirstAppearances(xs) == before && c !in before && RunOf(ys, c)
    ensures FirstAppearances(xs + ys) == before + [c]
  {
    FirstAppearancesBlock(xs, ys, c);
  }

  lemma OneRun(ct: seq<string>)
    requires RunOf(ct, "Theme")
    ensures FirstAppearances(ct) == ["Theme"]
  {
    assert [] + ct == ct;
    NewRun([], ct, "Theme", []);
  }

  lemma TwoRuns(ct: seq<string>, cw: seq<string>)
    requires RunOf(ct, "Theme") && RunOf(cw, "Widgets")
    ensures FirstAppearances(ct + cw) == ["Theme", "Widgets"]
  {
    OneRun(ct);
    NewRun(ct, cw, "Widgets", ["Theme"]);
  }

  lemma ThreeRuns(ct: seq<string>, cw: seq<string>, ca: seq<string>)
    requires RunOf(ct, "Theme") && RunOf(cw, "Widgets") && RunOf(ca, "Actions")
    ensures FirstAppearances(ct + cw + ca) == ["Theme", "Widgets", "Actions"]
  {
    TwoRuns(ct, cw);
    NewRun(ct + cw, ca, "Actions", ["Theme", "Widgets"]);
  }

  lemma FourRuns(ct: seq<string>, cw: seq<string>, ca: seq<string>, cl: seq<string>)
    requires RunOf(ct, "Theme") && RunOf(cw, "Widgets") && RunOf(ca, "Actions") && RunOf(cl, "Quick Links")
    ensures FirstAppearances(ct + cw + ca + cl) == ["Theme", "Widgets", "Actions", "Quick Links"]
  {
    ThreeRuns(ct, cw, ca);
    NewRun(ct + cw + ca, cl, "Quick Links", ["Theme", "Widgets", "Actions"]);
  }

  lemma {:induction false} BlocksCategories(t: seq<Command>, w: seq<Command>, a: seq<Command>, l: seq<Command>)
    requires Blocks(t, w, a, l)
    ensures FirstAppearances(Categories(t + w + a + l)) == ["Theme", "Widgets", "Actions", "Quick Links"]
  {
    CategoriesAppend(t, w);
    CategoriesAppend(t + w, a);
    CategoriesAppend(t + w + a, l);
    BlockCategories(t, "Theme");
    BlockCategories(w, "Widgets");
    BlockCategories(a, "Actions");
    BlockCategories(l, "Quick Links");
    FourRuns(Categories(t), Categories(w), Categories(a), Categories(l));
  }

  lemma SelectNone(cs: seq<Command>, c: string)
    requires NoneOf(cs, c)
    ensures Filter(cs, KeyIs(CommandCategory, c)) == []
  {
    forall k | 0 <= k < |cs|
      ensures !KeyIs(CommandCategory, c)(cs[k])
    {
      KeyIsApply(CommandCategory, c, cs[k]);
    }
    FilterNone(cs, KeyIs(CommandCategory, c));
  }

  lemma SelectAll(cs: seq<Command>, c: string)
    requires AllOf(cs, c)
    ensures Filter(cs, KeyIs(CommandCategory, c)) == cs
  {
    forall k | 0 <= k < |cs|
      ensures KeyIs(CommandCategory, c)(cs[k])
    {
      KeyIsApply(CommandCategory, c, cs[k]);
    }
    FilterKeepsAll(cs, KeyIs(CommandCategory, c));
  }

  lemma SelectMiddle(pre: seq<Command>, x: seq<Command>, post: seq<Command>, c: string)
    requires Filter(pre, KeyIs(CommandCategory, c)) == []
    requires Filter(x, KeyIs(CommandCategory, c)) == x
    requires Filter(post, KeyIs(CommandCategory, c)) == []
    ensures Filter(pre + x + post, KeyIs(CommandCategory, c)) == x
  {
    FilterAppend(pre + x, post, KeyIs(CommandCategory, c));
    FilterAppend(pre, x, KeyIs(CommandCategory, c));
  }

  /** A block surrounded by commands of other categories is what its
      category selects. */
  lemma PickBlock(pre: seq<Command>, x: seq<Command>, post: seq<Command>, c: string)
    requires NoneOf(pre, c) && AllOf(x, c) && NoneOf(post, c)
    ensures Filter(pre + x + post, KeyIs(CommandCategory, c)) == x
  {
    SelectNone(pre, c);
    SelectAll(x, c);
    SelectNone(post, c);
    SelectMiddle(pre, x, post, c);
  }

  lemma ThemeBlock(t: seq<Command>, w: seq<Command>, a: seq<Command>, l: seq<Command>)
    requires Blocks(t, w, a, l)
    ensures Filter(t + w + a + l, KeyIs(CommandCategory, "Theme")) == t
  {
    assert t + w + a + l == [] + t + (w + a + l);
    PickBlock([], t, w + a + l, "Theme");
  }

  lemma WidgetsBlock(t: seq<Command>, w: seq<Command>, a: seq<Command>, l: seq<Command>)
    requires Blocks(t, w, a, l)
    ensures Filter(t + w + a + l, KeyIs(CommandCategory, "Widgets")) == w
  {
    assert t + w + a + l == t + w + (a + l);
    PickBlock(t, w, a + l, "Widgets");
  }

  lemma ActionsBlock(t: seq<Command>, w: seq<Command>, a: seq<Command>, l: seq<Command>)
    requires Blocks(t, w, a, l)
    ensures Filter(t + w + a + l, KeyIs(CommandCategory, "Actions")) == a
  {
    PickBlock(t + w, a, l, "Actions");
  }

  lemma LinksBlock(t: seq<Command>, w: seq<Command>, a: seq<Command>, l: seq<Command>)
    requires Blocks(t, w, a, l)
    ensures Filter(t + w + a + l, KeyIs(CommandCategory, "Quick Links")) == l
  {
    assert t + w + a + l == (t + w + a) + l + [];
    PickBlock(t + w + a, l, [], "Quick Links");
  }

  /** The catalogue is laid out in the four blocks. */
  lemma CatalogueIsBlocks(m: map<string, bool>)
    ensures Blocks(ThemeCommands(), WidgetCommands(m), ActionCommands(), LinkCommands())
  {
  }

  /** The palette shows four headings, Theme, Widgets, Actions and Quick
      Links, in that order, each listing its block of the catalogue in
      registration order. */
  lemma PaletteHeadings(m: map<string, bool>)
    ensures var gs := GroupByCategory(Commands(m));
      && |gs| == 4
      && gs[0] == Group("Theme", ThemeCommands())
      && gs[1] == Group("Widgets", WidgetCommands(m))
      && gs[2] == Group("Actions", ActionCommands())
      && gs[3] == Group("Quick Links", LinkCommands())
  {
    var t, w, a, l := ThemeCommands(), WidgetCommands(m), ActionCommands(), LinkCommands();
    GroupingMatchesDefinition(t + w + a + l);
    CatalogueIsBlocks(m);
    BlocksCategories(t, w, a, l);
    ThemeBlock(t, w, a, l);
    WidgetsBlock(t, w, a, l);
    ActionsBlock(t, w, a, l);
    LinksBlock(t, w, a, l);
  }

  predicate AllOf(cs: seq<Command>, c: string) {
    forall i :: 0 <= i < |cs| ==> cs[i].category == c
  }

  predicate NoneOf(cs: seq<Command>, c: string) {
    forall i :: 0 <= i < |cs| ==> cs[i].category != c
  }

}
