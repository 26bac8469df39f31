# Serene new-tab dashboard, modelled in Dafny

This project models the state logic of a browser new-tab dashboard: a page
(`Index.tsx`) that holds the theme, the map of enabled widgets and a daily
background image, and hosts a set of widgets and tools. Every piece of state
the page or a widget keeps is a Dafny datatype. Every event handler or
effect is a pure function from the old state to the new. The browser's
`localStorage` is a `map<string, string>` threaded through the page, the
sidebar and the notes widget. The page's widget map and the mood history
keep their last saved copy in a field. The to-do, bookmark and quick-link
widgets model only their lists (see "Left out").

One module per source component:

- `Dashboard`: the page's theme, widget map and daily background cache (`Index.tsx`).
- `Palette`: the Ctrl/Cmd+K command palette, with its keyboard shortcut, its catalogue of 18 commands, what each command does to the page, and the grouping of the catalogue into headings (`CommandPalette.tsx`).
- `Assistant`: the AI sidebar. It covers the key gate, the single in-flight request, the exact request body, how the reply or a failure lands in the history, the API key's storage, and the voice control (`AIAssistantSidebar.tsx`).
- `Search`: the search bar, where typing or dictating opens a Google search tab (`SearchBar.tsx`).
- `Todos`, `Bookmarks`, `QuickLinks`, `Notes`, `Mood`, `Music`, `Pomodoro`: one module per widget.
- Shared modules: `Options` (an optional value), `Text` (JavaScript's `trim`, `startsWith`, `padStart`, number-to-string and the `||` default on strings), `Lists` (`filter` and remove-by-id), `Store` (`localStorage`) and `Speech` (the listening flag shared by the sidebar and the search bar).

Several steps depend on the platform: the clock, `toDateString`, `encodeURIComponent`, the URL parser's hostname and the network. The clock is a `now: nat` argument, as are the date-derived strings. The three platform functions are passed in as function-typed parameters. The network's answer is an argument of the completion step: `Outcome` for the assistant and `Fetch` for the background. The assistant's `async sendMessage` is split into `Send`, the part before the request leaves, and `Complete`, the part that runs when it settles.

Four behaviours of the code shape the model:

- The Pomodoro timer pauses itself when a phase reaches zero (`PomodoroWidget.tsx:17`) and waits for Start. It does not run on into the next phase.
- Stored JSON is parsed without a guard, so there is no "malformed data falls back to defaults" path to model. The `Load` functions take the parsed value or its absence.
- The palette command "Open Settings" only slides the settings panel in. "Toggle Focus Mode" does nothing, because the page passes no focus-mode callback (`Index.tsx:206-212`).
- The quick-links form adds `https://` only when the typed address does not start with `http`. An address such as `httpbin.org` is therefore kept as typed. `QuickLinks.LinkUrl` states exactly that.

## Model

| member | source | states |
|---|---|---|
| Dashboard.DefaultWidgets | src/pages/Index.tsx:24-36 | the default widget map has exactly the eleven widget names as keys, all enabled |
| Dashboard.LoadTheme | src/pages/Index.tsx:21 | the stored theme when one is stored and non-empty, otherwise "dark"; never empty |
| Dashboard.LoadWidgets | src/pages/Index.tsx:22-37 | the saved widget map when there is one, otherwise the defaults |
| Dashboard.ToggleWidget | src/pages/Index.tsx:89-94 | the toggled widget's enabled state flips, and an absent widget becomes enabled; the keys grow by that widget at most; every other entry is kept |
| Dashboard.ToggleWidgetTwice | src/pages/Index.tsx:89-94 | toggling a widget that is in the map twice gives back the same map |
| Dashboard.ToggleTheme | src/pages/Index.tsx:115 | the navbar toggle always yields "light" or "dark", and yields "light" exactly when the theme was "dark" |
| Dashboard.ToggleThemeTwice | src/pages/Index.tsx:115 | on the two real themes the toggle is its own inverse |
| Dashboard.SetTheme | src/pages/Index.tsx:79-82 | the theme changes and is written to the "theme" slot; every other storage slot keeps its value and every other field of the page is unchanged |
| Dashboard.SetWidgets | src/pages/Index.tsx:85-87 | the widget map changes and is persisted; every other field of the page is unchanged |
| Dashboard.Init | src/pages/Index.tsx:20-39 | the page mounts with the loaded theme and widgets; with empty storage that is the dark theme with every widget on; no background, sidebar closed; the mount effects have written the theme back to its slot (no other slot changes) and saved the widget map |
| Dashboard.ThemeReloads | src/pages/Index.tsx:79-82 | a theme chosen now is the theme the next mount loads |
| Dashboard.WidgetsReload | src/pages/Index.tsx:85-94 | a widget toggled now stays toggled on the next mount |
| Dashboard.LoadBackground | src/pages/Index.tsx:43-73 | no request is made exactly when a non-empty image was cached on the same day, and that image is shown; an ok response shows the image and caches it with the day; a failure shows none and leaves the cache alone; no storage slot other than the image and its day is ever touched |
| Dashboard.SameDayReuse | src/pages/Index.tsx:45-52 | after a successful fetch, a second mount that day makes no request and shows the same image |
| Dashboard.NextDayRefetches | src/pages/Index.tsx:45-64 | an image fetched one day is not reused on another day: a new request is made |
| Dashboard.FailureRetries | src/pages/Index.tsx:65-72 | after a failed or non-ok fetch the next mount the same day fetches again |
| Palette.OnKeyDown | src/components/dashboard/CommandPalette.tsx:55-67 | Ctrl+K or Cmd+K flips the palette anywhere; a bare "/" opens it unless focus is in an INPUT or TEXTAREA and never closes it; every other key leaves it as it was |
| Palette.ShortcutTwice | src/components/dashboard/CommandPalette.tsx:56-59 | pressing the shortcut twice restores the palette's state |
| Palette.WidgetLabel | src/components/dashboard/CommandPalette.tsx:98-167 | a widget command's label starts with "Hide" exactly when the widget is enabled and with "Show" exactly when it is not |
| Palette.ThemeCommands | src/components/dashboard/CommandPalette.tsx:80-95 | two commands, both under the Theme heading |
| Palette.WidgetCommands | src/components/dashboard/CommandPalette.tsx:97-167 | ten widget toggles, in the table's order, under the Widgets heading; command i has the i-th widget's id, label and toggle action |
| Palette.ActionCommands | src/components/dashboard/CommandPalette.tsx:169-199 | three commands under the Actions heading |
| Palette.LinkCommands | src/components/dashboard/CommandPalette.tsx:201-225 | three commands under the Quick Links heading |
| Palette.Commands | src/components/dashboard/CommandPalette.tsx:78-226 | the catalogue holds 18 commands |
| Palette.WidgetLabelsFollowState | src/components/dashboard/CommandPalette.tsx:97-167 | in the whole catalogue, every widget command reads "Hide …" when its widget is shown and "Show …" when it is hidden |
| Palette.IdsDistinct | src/components/dashboard/CommandPalette.tsx:78-226 | no two commands share an id |
| Palette.Run | src/pages/Index.tsx:206-212 | a theme command sets and stores the theme; a widget command toggles that widget; settings only slides the panel in; focus mode changes nothing; the assistant command opens the sidebar; a link command appends its URL to the opened tabs; in every case the rest of the page is unchanged |
| Palette.Execute | src/components/dashboard/CommandPalette.tsx:73-76 | choosing a command runs its action once and closes the palette |
| Palette.ThemeCommandIdempotent | src/components/dashboard/CommandPalette.tsx:80-95 | running a theme command twice is the same as running it once |
| Palette.WidgetCommandFlipsLabel | src/components/dashboard/CommandPalette.tsx:97-167 | executing a widget command flips that widget once, so its next label says the opposite |
| Palette.ShowTodoScenario | src/components/dashboard/CommandPalette.tsx:112-118 | with the to-do widget hidden, the fifth command is "toggle-todo" labelled "Show Todo Widget"; executing it enables the widget and closes the palette |
| Palette.FindGroup | src/components/dashboard/CommandPalette.tsx:230 | the first group with the category: none before it has that category, and none is reported only when no group has it |
| Palette.AddToGroups | src/components/dashboard/CommandPalette.tsx:229-235 | one `reduce` step: the command joins the end of the first group of its category, every other group is unchanged, and when no group has the category a new one-command group is appended |
| Palette.GroupByCategory | src/components/dashboard/CommandPalette.tsx:229-235 | the `reduce` over the catalogue yields no more groups than commands, with distinct headings and no empty group |
| Palette.FirstAppearances | src/components/dashboard/CommandPalette.tsx:243 | the headings are distinct |
| Palette.FirstAppearancesMembers | src/components/dashboard/CommandPalette.tsx:229-243 | a category is a heading exactly when some command carries it |
| Palette.GroupsByDefinition | src/components/dashboard/CommandPalette.tsx:229-243 | the reference grouping: one group per category, in order of first appearance |
| Palette.GroupingMatchesDefinition | src/components/dashboard/CommandPalette.tsx:229-235 | the `reduce` builds exactly the reference grouping: categories in order of first appearance, each group holding that category's commands in catalogue order |
| Palette.GroupingPartitions | src/components/dashboard/CommandPalette.tsx:229-235 | the groups partition the catalogue: distinct headings, each command listed under its own category, and every command in exactly one group |
| Palette.PaletteHeadings | src/components/dashboard/CommandPalette.tsx:229-256 | the palette shows the headings Theme, Widgets, Actions, Quick Links in that order, each listing its block of the catalogue |
| Assistant.Init | src/components/dashboard/AIAssistantSidebar.tsx:31-37 | empty history and input; the key field holds the stored key, or nothing; the key panel shows exactly when the field is empty |
| Assistant.RequestFor | src/components/dashboard/AIAssistantSidebar.tsx:139-164 | the request carries the key as bearer, the fixed model, a system turn and the one user turn, and the fixed sampling settings |
| Assistant.Send | src/components/dashboard/AIAssistantSidebar.tsx:114-136 | a blank message or a request in flight does nothing; an empty key only reveals the key panel; otherwise the trimmed message is appended, the field is cleared, loading starts and exactly one request goes out with that message |
| Assistant.ReplyText | src/components/dashboard/AIAssistantSidebar.tsx:175 | the reply is the response's content when present and non-empty, otherwise the fixed apology; never empty |
| Assistant.Complete | src/components/dashboard/AIAssistantSidebar.tsx:167-189 | an ok response appends exactly one assistant message; a non-ok status or a thrown error appends nothing; loading ends either way |
| Assistant.Type | src/components/dashboard/AIAssistantSidebar.tsx:343 | the message field becomes the typed text and every other part of the session is unchanged |
| Assistant.TypeKey | src/components/dashboard/AIAssistantSidebar.tsx:270 | typing a key changes the key used by the next send at once, without storing it |
| Assistant.ToggleKeyPanel | src/components/dashboard/AIAssistantSidebar.tsx:223 | the settings button shows or hides the key panel |
| Assistant.SaveApiKey | src/components/dashboard/AIAssistantSidebar.tsx:103-112 | a blank key changes nothing; otherwise the trimmed key is stored and the panel hides; no other storage slot is added or changed |
| Assistant.ClearMessages | src/components/dashboard/AIAssistantSidebar.tsx:199-205 | the history is emptied and every other part of the session is unchanged |
| Assistant.OnKeyPress | src/components/dashboard/AIAssistantSidebar.tsx:192-197 | Enter without Shift sends; any other key does nothing |
| Assistant.ToggleVoice | src/components/dashboard/AIAssistantSidebar.tsx:84-101 | without a recogniser nothing changes; with one, listening starts or stops |
| Assistant.OnResult | src/components/dashboard/AIAssistantSidebar.tsx:57-61 | a recognised phrase replaces the message field, unsent, and listening stops |
| Assistant.OnErrorOrEnd | src/components/dashboard/AIAssistantSidebar.tsx:63-74 | an error or the end of recognition stops listening and changes nothing else |
| Assistant.SingleInFlight | src/components/dashboard/AIAssistantSidebar.tsx:114-115 | while a request is in flight, a second send issues nothing, whatever was typed meanwhile |
| Assistant.TurnAnswered | src/components/dashboard/AIAssistantSidebar.tsx:127-179 | a successful turn adds the user's trimmed message and then one assistant reply, keeping the earlier history |
| Assistant.TurnFailed | src/components/dashboard/AIAssistantSidebar.tsx:180-189 | a failed turn keeps the user's message, adds no reply and ends loading |
| Assistant.KeyGateOnFirstUse | src/components/dashboard/AIAssistantSidebar.tsx:114-125 | with nothing stored, a first message issues no request, leaves the history empty and shows the key panel |
| Assistant.Step | src/components/dashboard/AIAssistantSidebar.tsx:57-197 | no event of the sidebar other than the clear button removes or reorders anything in the history |
| Assistant.HistoryOnlyGrows | src/components/dashboard/AIAssistantSidebar.tsx:57-197 | over any sequence of such events the old history stays a prefix of the new |
| Assistant.SavedKeyReloads | src/components/dashboard/AIAssistantSidebar.tsx:103-106 | a saved key is what the next mount puts in the key field, and the key panel then starts hidden |
| Speech.Toggle | src/components/dashboard/SearchBar.tsx:50-60 | without a recogniser the state stays; with one it always changes |
| Speech.ToggleTwice | src/components/dashboard/SearchBar.tsx:50-60 | toggling twice restores the listening state |
| Search.Initial | src/components/dashboard/SearchBar.tsx:7-8 | empty query, not listening |
| Search.SearchTabs | src/components/dashboard/SearchBar.tsx:38-42 | a blank query opens nothing; otherwise one tab, whose URL is the Google search prefix followed by the encoded query |
| Search.Type | src/components/dashboard/SearchBar.tsx:73 | typing replaces the query only |
| Search.OnKey | src/components/dashboard/SearchBar.tsx:44-48 | Enter searches for the current query; other keys open nothing; the bar is unchanged |
| Search.ToggleVoice | src/components/dashboard/SearchBar.tsx:50-60 | without a recogniser nothing changes; with one, listening flips; the query is kept |
| Search.OnResult | src/components/dashboard/SearchBar.tsx:26-30 | a recognised phrase becomes the query and is searched at once |
| Search.OnEnd | src/components/dashboard/SearchBar.tsx:32-34 | recognition ending stops listening and keeps the query |
| Search.VoiceMatchesTyping | src/components/dashboard/SearchBar.tsx:26-48 | dictating a phrase opens the same tabs as typing it and pressing Enter |
| Todos.Load | src/components/widgets/TodoWidget.tsx:17-22 | the stored list if any, otherwise no items |
| Todos.Type | src/components/widgets/TodoWidget.tsx:69 | typing replaces the draft only |
| Todos.Add | src/components/widgets/TodoWidget.tsx:28-39 | a blank draft changes nothing; otherwise exactly one open item with the trimmed text and a clock-derived id goes in front of the old list, and the draft clears |
| Todos.Toggle | src/components/widgets/TodoWidget.tsx:41-45 | items with the id flip their completion; nothing else about any item, and no item's place, changes |
| Todos.ToggleTwice | src/components/widgets/TodoWidget.tsx:41-45 | ticking twice restores the list |
| Todos.ToggleAbsent | src/components/widgets/TodoWidget.tsx:41-45 | ticking an id no item has changes nothing |
| Todos.Delete | src/components/widgets/TodoWidget.tsx:47-49 | no survivor has the id, survivors come from the list, and every item with another id survives |
| Todos.DeleteKeepsOrder | src/components/widgets/TodoWidget.tsx:47-49 | deletion distributes over concatenation, so survivors keep their order; a list without the id is untouched |
| Todos.AddThenDelete | src/components/widgets/TodoWidget.tsx:28-49 | deleting an item just added, under its fresh id, restores the list |
| Bookmarks.Defaults | src/components/widgets/BookmarkWidget.tsx:18-40 | three default bookmarks with distinct ids and https addresses |
| Bookmarks.Load | src/components/widgets/BookmarkWidget.tsx:17-42 | the saved list if any, otherwise the defaults; an empty, closed form |
| Bookmarks.NormaliseUrl | src/components/widgets/BookmarkWidget.tsx:64-67 | the result always has an http or https scheme; an address with one is kept; any other address gets "https://" in front |
| Bookmarks.NormaliseIdempotent | src/components/widgets/BookmarkWidget.tsx:64-67 | normalising twice is normalising once |
| Bookmarks.FaviconUrl | src/components/widgets/BookmarkWidget.tsx:49-56 | the favicon address is always a request to Google's favicon service at size 32: for the parsed host, or for example.com when the address does not parse |
| Bookmarks.Add | src/components/widgets/BookmarkWidget.tsx:58-80 | a missing title or URL changes nothing; otherwise one bookmark with a fresh id, the title, the normalised URL and its favicon is appended, the form clears and the dialog closes |
| Bookmarks.Remove | src/components/widgets/BookmarkWidget.tsx:82-85 | no survivor has the id, and every bookmark with another id survives |
| Bookmarks.RemoveKeepsOrder | src/components/widgets/BookmarkWidget.tsx:82-85 | removal keeps the survivors in order |
| Bookmarks.AddThenRemove | src/components/widgets/BookmarkWidget.tsx:58-85 | removing a bookmark just added restores the list |
| QuickLinks.Defaults | src/components/widgets/QuickLinksWidget.tsx:24-30 | four default links with distinct ids |
| QuickLinks.Load | src/components/widgets/QuickLinksWidget.tsx:19-32 | the saved list if any, otherwise the defaults; an empty form, not editing |
| QuickLinks.LinkUrl | src/components/widgets/QuickLinksWidget.tsx:43 | the result starts with "http"; an address that does is kept, any other gets "https://" in front |
| QuickLinks.LinkUrlIdempotent | src/components/widgets/QuickLinksWidget.tsx:43 | applying the rule twice is applying it once |
| QuickLinks.LinkIcon | src/components/widgets/QuickLinksWidget.tsx:44 | the chosen icon when one was typed, otherwise the link emoji; never empty |
| QuickLinks.Add | src/components/widgets/QuickLinksWidget.tsx:38-50 | a missing name or URL changes nothing; otherwise exactly the new link is appended, the form clears and editing ends |
| QuickLinks.Remove | src/components/widgets/QuickLinksWidget.tsx:52-54 | no survivor has the id, and every link with another id survives |
| QuickLinks.RemoveKeepsOrder | src/components/widgets/QuickLinksWidget.tsx:52-54 | removal keeps the survivors in order |
| QuickLinks.AddThenRemove | src/components/widgets/QuickLinksWidget.tsx:38-54 | removing a link just added restores the list |
| Notes.Load | src/components/widgets/NotesWidget.tsx:10-15 | the stored text when non-empty, otherwise empty; not editing |
| Notes.Change | src/components/widgets/NotesWidget.tsx:55-58 | typing replaces the text and enters editing without storing |
| Notes.Save | src/components/widgets/NotesWidget.tsx:17-20 | the text is stored under "stickyNotes" and editing ends; no other storage slot is added or changed |
| Notes.OnKey | src/components/widgets/NotesWidget.tsx:22-29 | Escape leaves editing without saving; Ctrl+Enter saves; other keys change nothing |
| Notes.SaveThenLoad | src/components/widgets/NotesWidget.tsx:10-20 | saved text is what the next mount shows |
| Notes.EscapeDoesNotSave | src/components/widgets/NotesWidget.tsx:22-25 | Escape never writes storage or changes the text |
| Mood.MoodTable | src/components/widgets/MoodTrackerWidget.tsx:12-18 | five moods valued 1 to 5 in order |
| Mood.Find | src/components/widgets/MoodTrackerWidget.tsx:45 | the first table row with the value, or none |
| Mood.EmojiFor | src/components/widgets/MoodTrackerWidget.tsx:45-50 | a value on the scale gets its table emoji; any other value gets the neutral face |
| Mood.FirstOnDay | src/components/widgets/MoodTrackerWidget.tsx:32-35 | the first entry made today, or none when no entry is from today |
| Mood.Load | src/components/widgets/MoodTrackerWidget.tsx:25-41 | the stored entries, or none; today's mood is the first stored entry from today (no earlier entry is from today), absent only when no stored entry is from today, and the selected button shows exactly its mood |
| Mood.SaveMood | src/components/widgets/MoodTrackerWidget.tsx:43-64 | the new entry goes first, followed by exactly the old entries from other days in their old order; every entry from today is dropped; the new list is stored |
| Mood.SaveMoodKeepsOrder | src/components/widgets/MoodTrackerWidget.tsx:53-58 | saving a history split in two parts filters each part on its own, so an entry that came before another still does |
| Mood.SaveMoodOnePerDay | src/components/widgets/MoodTrackerWidget.tsx:53-58 | after saving, exactly one entry is from today |
| Mood.SaveThenLoad | src/components/widgets/MoodTrackerWidget.tsx:25-64 | the next mount finds the saved entry as today's mood, selected |
| Mood.SaveMoodFirstOfDay | src/components/widgets/MoodTrackerWidget.tsx:53-58 | the first save of a day only prepends |
| Mood.RecentMoods | src/components/widgets/MoodTrackerWidget.tsx:72-74 | the first seven entries, or all of them when fewer |
| Mood.AverageMood | src/components/widgets/MoodTrackerWidget.tsx:66-70 | zero for no entries; otherwise the average times the count is the sum |
| Mood.SumBounds | src/components/widgets/MoodTrackerWidget.tsx:68 | entries on the 1 to 5 scale sum to between the count and five times the count |
| Mood.AverageOnScale | src/components/widgets/MoodTrackerWidget.tsx:66-70 | moods picked with the buttons average between 1 and 5 |
| Music.Tracks | src/components/widgets/MusicPlayerWidget.tsx:21-40 | three tracks |
| Music.Initial | src/components/widgets/MusicPlayerWidget.tsx:14-16 | first track, stopped, at the start |
| Music.Next | src/components/widgets/MusicPlayerWidget.tsx:83-91 | moves to the next track, wrapping from the last to the first; progress resets; playing is kept |
| Music.Prev | src/components/widgets/MusicPlayerWidget.tsx:93-101 | moves to the previous track, wrapping from the first to the last; progress resets; playing is kept |
| Music.TogglePlay | src/components/widgets/MusicPlayerWidget.tsx:71-81 | without an audio element nothing changes; otherwise only the playing flag flips |
| Music.Ended | src/components/widgets/MusicPlayerWidget.tsx:52-54 | a finished track advances like Next; after the last comes the first |
| Music.NextPrevInverse | src/components/widgets/MusicPlayerWidget.tsx:83-101 | Next then Prev, and Prev then Next, return to the same track |
| Music.NextNMoves | src/components/widgets/MusicPlayerWidget.tsx:83-85 | k presses of Next move k places round the list |
| Music.FullRound | src/components/widgets/MusicPlayerWidget.tsx:83-85 | as many Next presses as there are tracks return to the same track |
| Music.ControlsKeepValid | src/components/widgets/MusicPlayerWidget.tsx:52-101 | any sequence of button presses and track ends keeps the current index in range |
| Pomodoro.Initial | src/components/widgets/PomodoroWidget.tsx:6-8 | a paused 25-minute work phase |
| Pomodoro.Tick | src/components/widgets/PomodoroWidget.tsx:12-15 | a running timer with time left loses one second; otherwise nothing changes |
| Pomodoro.Settle | src/components/widgets/PomodoroWidget.tsx:16-29 | at zero the timer pauses and switches to the other phase with that phase's full length; otherwise nothing changes |
| Pomodoro.Toggle | src/components/widgets/PomodoroWidget.tsx:56-58 | start/pause flips running and keeps the time and phase |
| Pomodoro.Reset | src/components/widgets/PomodoroWidget.tsx:60-63 | pauses and refills the current phase |
| Pomodoro.Elapsed | src/components/widgets/PomodoroWidget.tsx:65-67 | elapsed time lies within the phase, and is zero only for a full phase |
| Pomodoro.Progress | src/components/widgets/PomodoroWidget.tsx:65-67 | progress lies between 0 and 100 percent |
| Pomodoro.Second | src/components/widgets/PomodoroWidget.tsx:11-29 | one second: a running timer above one second loses a second; the second that reaches zero, or a timer already at zero, leaves it paused at the full length of the other phase; a paused timer with time left is unchanged; a valid timer stays valid |
| Pomodoro.Run | src/components/widgets/PomodoroWidget.tsx:11-41 | however many seconds pass, the time left stays within the current phase's length |
| Pomodoro.EventsKeepValid | src/components/widgets/PomodoroWidget.tsx:11-63 | any mix of elapsed seconds and start/pause or reset presses keeps the time left within the current phase's length |
| Pomodoro.CountDown | src/components/widgets/PomodoroWidget.tsx:11-15 | a running timer loses exactly k seconds in k seconds while it has more than k left |
| Pomodoro.PhaseEnds | src/components/widgets/PomodoroWidget.tsx:11-29 | a running phase ends, after exactly its remaining time, paused at the full length of the other phase |
| Pomodoro.PausedStays | src/components/widgets/PomodoroWidget.tsx:11-34 | a paused timer with time left does not change |
| Pomodoro.FullCycle | src/components/widgets/PomodoroWidget.tsx:6-29 | started fresh, 1500 seconds give a paused 5-minute break, and restarting that, 300 more seconds give a paused 25-minute work phase |
| Pomodoro.Pad2 | src/components/widgets/PomodoroWidget.tsx:53 | at least two characters, and exactly two below 100 |
| Pomodoro.Pad2Reads | src/components/widgets/PomodoroWidget.tsx:53 | the padded number is all digits and reads back as the number |
| Pomodoro.FormatTime | src/components/widgets/PomodoroWidget.tsx:50-54 | the display ends in ":ss" and is "mm:ss", five characters, below 100 minutes |
| Pomodoro.FormatTimeRoundTrip | src/components/widgets/PomodoroWidget.tsx:50-54 | reading the display back gives the number of seconds shown |
| Text.Trim | src/components/widgets/TodoWidget.tsx:29 | the trimmed text is a contiguous piece of the input with only white space outside it; it neither starts nor ends with white space, and is empty exactly when the input is blank |
| Store.Get | src/pages/Index.tsx:46-47 | `getItem` yields a value exactly when the slot was written, and then the slot's value |
| Store.Set | src/pages/Index.tsx:63-64 | `setItem` makes the slot hold the value and keeps every other slot |
| Store.GetAfterSet | src/pages/Index.tsx:63-64 | a written value is read back, and reading another slot gives what it gave before |
| Text.OrElse | src/components/dashboard/AIAssistantSidebar.tsx:36 | a stored non-empty string wins; a missing or empty one gives the fallback |
| Lists.RemoveKey | src/components/widgets/TodoWidget.tsx:48 | no survivor has the id, every element with another id survives, and exactly the matching elements are dropped |

## Left out

- Network requests (the chat API and the image API) are not performed. Their results are arguments: `Outcome` for the assistant, `Fetch` for the background.
- Toasts, `console.error`, scrolling to the newest message and focusing the search field are not modelled. They change no state that the model tracks.
- Browser notifications and the permission request of the Pomodoro widget are left out, as I/O.
- Audio playback, volume, seeking and the `timeupdate` progress are left out; progress is only reset to zero. The delayed `play()` after a track change (`setTimeout`) is not modelled.
- The mood tracker's `toFixed(1)` rounding is left out. `Mood.AverageMood` is the exact average before rounding.
- Matching the palette's query against labels and keywords is done by the dialog library, whose code is not part of this model. So is the dialog closing itself on Escape or an outside click.
- JSON (de)serialisation is not modelled. The `Load` functions take the parsed stored value, or its absence.
- The sidebar's minimise button is not modelled; it only changes layout.
- The quick-links `getFavicon` is left out; it is used only to render an image.
- The clock, weather, news and quote widgets, the navbar (beyond the theme toggle), the settings panel and the styling configuration are not part of this model.
- `toDateString`, `encodeURIComponent` and the URL parser's hostname are parameters (`dayOf`, `encode`, `host`); their own behaviour is not modelled.
- Palette.GroupByCategory: categories are plain strings, and headings come out in order of first appearance. JavaScript's `Object.entries` on the `reduce` accumulator would list integer-like keys first, in ascending order, and a category named after an `Object.prototype` member (such as `constructor`) would be found by `!acc[category]` before any group exists. Neither case is modelled. The dashboard's catalogue has only the headings Theme, Widgets, Actions and Quick Links, which are neither. The same holds for `Palette.AddToGroups` and `Palette.GroupingMatchesDefinition`.
- The save-on-change effects of the to-do, bookmark and quick-link widgets (`TodoWidget.tsx:24-26`, `BookmarkWidget.tsx:45-47`, `QuickLinksWidget.tsx:34-36`) are not modelled. Each writes the whole list, as JSON, to its slot whenever the list changes, so the stored value is always the current list. The widgets' datatypes carry no storage, and each `Load` takes the stored list, already parsed, or its absence.
- Dashboard.NextDayRefetches: states the new request only after a successful fetch. After a failed fetch, the cache may hold any older entry, including one dated the later day.
