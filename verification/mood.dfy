/** The mood tracker: one mood per calendar day on a 1-5 scale, newest
    first. `dayOf` is the browser's calendar-day rendering of a stored ISO
    time stamp (`new Date(stamp).toDateString()`), and `today` is that of
    the current moment. */
module Mood {
  import opened Options
  import opened Lists

  datatype MoodEntry = MoodEntry(date: string, mood: int, emoji: string)

  datatype MoodOption = MoodOption(value: int, emoji: string, caption: string)

  /** The five buttons. */
  function MoodTable(): (t: seq<MoodOption>)
    ensures |t| == 5
    ensures forall i :: 0 <= i < 5 ==> t[i].value == i + 1
  {
    [
      MoodOption(1, "\U{1F61E}", "Sad"),
      MoodOption(2, "\U{1F615}", "Disappointed"),
      MoodOption(3, "\U{1F610}", "Neutral"),
      MoodOption(4, "\U{1F60A}", "Happy"),
      MoodOption(5, "\U{1F604}", "Great")
    ]
  }

  /** The emoji used when the table has no entry for a value. */
  const NeutralEmoji: string := "\U{1F610}"

  /** `table.find(m => m.value === v)`. */
  function Find(table: seq<MoodOption>, v: int): (r: Option<nat>)
    ensures r.Some? ==> r.value < |table| && table[r.value].value == v
    ensures r.Some? ==> forall j :: 0 <= j < r.value ==> table[j].value != v
    ensures r.None? ==> forall j :: 0 <= j < |table| ==> table[j].value != v
  {
    FirstIndex(table, (m: MoodOption) => m.value == v)
  }

  /** The emoji stored with a mood: the table's for 1 to 5, the neutral face
      for anything else. */
  function EmojiFor(v: int): (e: string)
    ensures 1 <= v <= 5 ==> e == MoodTable()[v - 1].emoji
    ensures !(1 <= v <= 5) ==> e == NeutralEmoji
  {
    match Find(MoodTable(), v)
    case Some(i) => MoodTable()[i].emoji
    case None => NeutralEmoji
  }

  datatype Tracker = Tracker(
    moods: seq<MoodEntry>,
    selected: Option<int>,
    todayMood: Option<MoodEntry>,
    saved: Option<seq<MoodEntry>>)

  /** The calendar day of an entry. */
  function EntryDay(dayOf: string -> string): MoodEntry -> string {
    (e: MoodEntry) => dayOf(e.date)
  }

  /** The first entry made on `today`, if any. */
  function FirstOnDay(moods: seq<MoodEntry>, today: string, dayOf: string -> string): (r: Option<nat>)
    ensures r.Some? ==> r.value < |moods| && dayOf(moods[r.value].date) == today
    ensures r.Some? ==> forall j :: 0 <= j < r.value ==> dayOf(moods[j].date) != today
    ensures r.None? ==> forall j :: 0 <= j < |moods| ==> dayOf(moods[j].date) != today
  {
    FirstIndex(moods, (e: MoodEntry) => dayOf(e.date) == today)
  }

  /** The mount effect. With a stored list, it is shown, and its first entry
      for today, if any, becomes today's mood and the selected button. */
  function Load(saved: Option<seq<MoodEntry>>, today: string, dayOf: string -> string): (t: Tracker)
    ensures t.saved == saved
    ensures saved.None? ==> t.moods == [] && t.todayMood.None? && t.selected.None?
    ensures saved.Some? ==> t.moods == saved.value
    ensures t.todayMood.Some? ==> t.todayMood.value in t.moods && dayOf(t.todayMood.value.date) == today
    ensures t.todayMood.Some? <==> t.selected.Some?
    ensures t.todayMood.Some? ==> t.selected.value == t.todayMood.value.mood
    ensures t.todayMood.None? ==> forall j :: 0 <= j < |t.moods| ==> dayOf(t.moods[j].date) != today
    ensures t.todayMood.Some? ==>
      exists i :: 0 <= i < |t.moods| && t.moods[i] == t.todayMood.value
        && forall j :: 0 <= j < i ==> dayOf(t.moods[j].date) != today
  {
    match saved
    case None => Tracker([], None, None, None)
    case Some(ms) =>
      match FirstOnDay(ms, today, dayOf)
      case None => Tracker(ms, None, None, saved)
      case Some(i) =>
        assert forall j :: 0 <= j < i ==> dayOf(ms[j].date) != today;
        Tracker(ms, Some(ms[i].mood), Some(ms[i]), saved)
  }

  /** Choosing a mood at time `stamp`. Today's earlier entries are replaced:
      the new entry goes first, followed by every entry of another day in
      its original order; the list is also written to storage. */
  function SaveMood(t: Tracker, v: int, stamp: string, today: string, dayOf: string -> string): (r: Tracker)
    ensures |r.moods| >= 1 && r.moods[0] == MoodEntry(stamp, v, EmojiFor(v))
    ensures r.moods[1..] == RemoveKey(t.moods, EntryDay(dayOf), today)
    ensures forall i :: 1 <= i < |r.moods| ==> dayOf(r.moods[i].date) != today && r.moods[i] in t.moods
    ensures forall i :: 0 <= i < |t.moods| && dayOf(t.moods[i].date) != today ==> t.moods[i] in r.moods
    ensures |r.moods| == |t.moods| - Count(t.moods, KeyIs(EntryDay(dayOf), today)) + 1
    ensures r.todayMood == Some(r.moods[0]) && r.selected == Some(v)
    ensures r.saved == Some(r.moods)
  {
    var entry := MoodEntry(stamp, v, EmojiFor(v));
    var kept := RemoveKey(t.moods, EntryDay(dayOf), today);
    var moods := [entry] + kept;
    assert moods[1..] == kept;
    Tracker(moods, Some(v), Some(entry), Some(moods))
  }

  /** The entries of other days keep their order: saving works on each part
      of the history separately, so an entry that came before another still
      does. */
  lemma SaveMoodKeepsOrder(t: Tracker, a: seq<MoodEntry>, b: seq<MoodEntry>, v: int, stamp: string,
                           today: string, dayOf: string -> string)
    requires t.moods == a + b
    ensures SaveMood(t, v, stamp, today, dayOf).moods
      == [MoodEntry(stamp, v, EmojiFor(v))] + RemoveKey(a, EntryDay(dayOf), today) + RemoveKey(b, EntryDay(dayOf), today)
  {
    var r := SaveMood(t, v, stamp, today, dayOf).moods;
    RemoveKeyAppend(a, b, EntryDay(dayOf), today);
    assert r == [r[0]] + r[1..];
  }

  /** When the stamp falls on today, exactly one entry of today remains. */
  lemma SaveMoodOnePerDay(t: Tracker, v: int, stamp: string, today: string, dayOf: string -> string)
    requires dayOf(stamp) == today
    ensures Count(SaveMood(t, v, stamp, today, dayOf).moods, KeyIs(EntryDay(dayOf), today)) == 1
  {
    var ms := SaveMood(t, v, stamp, today, dayOf).moods;
    var rest := ms[1..];
    assert forall i :: 0 <= i < |rest| ==> !KeyIs(EntryDay(dayOf), today)(rest[i]);
    assert Count(rest, KeyIs(EntryDay(dayOf), today)) == 0;
  }

  /** Reloading after a save finds the saved entry as today's mood. */
  lemma SaveThenLoad(t: Tracker, v: int, stamp: string, today: string, dayOf: string -> string)
    requires dayOf(stamp) == today
    ensures var r := SaveMood(t, v, stamp, today, dayOf);
      Load(r.saved, today, dayOf).todayMood == Some(MoodEntry(stamp, v, EmojiFor(v)))
      && Load(r.saved, today, dayOf).selected == Some(v)
  {
  }

  /** Saving on a day with no earlier entry puts the new one on top of the
      unchanged list. */
  lemma SaveMoodFirstOfDay(t: Tracker, v: int, stamp: string, today: string, dayOf: string -> string)
    requires forall i :: 0 <= i < |t.moods| ==> dayOf(t.moods[i].date) != today
    ensures SaveMood(t, v, stamp, today, dayOf).moods == [MoodEntry(stamp, v, EmojiFor(v))] + t.moods
  {
    RemoveAbsentKey(t.moods, EntryDay(dayOf), today);
  }

  /** The strip of recent moods: the first seven entries, or all of them
      when there are fewer. */
  function RecentMoods(moods: seq<MoodEntry>): (r: seq<MoodEntry>)
    ensures |r| == if |moods| < 7 then |moods| else 7
    ensures forall i :: 0 <= i < |r| ==> r[i] == moods[i]
  {
    if |moods| < 7 then moods else moods[..7]
  }

  function Sum(moods: seq<MoodEntry>): int {
    if |moods| == 0 then 0 else moods[0].mood + Sum(moods[1..])
  }

  /** The average mood, before rounding to one decimal for display; zero for
      an empty list. */
  function AverageMood(moods: seq<MoodEntry>): (r: real)
    ensures |moods| == 0 ==> r == 0.0
    ensures |moods| > 0 ==> r * |moods| as real == Sum(moods) as real
  {
    if |moods| == 0 then 0.0 else Sum(moods) as real / |moods| as real
  }

  predicate OnScale(moods: seq<MoodEntry>) {
    forall i :: 0 <= i < |moods| ==> 1 <= moods[i].mood <= 5
  }

  lemma {:induction false} SumBounds(moods: seq<MoodEntry>)
    requires OnScale(moods)
    ensures |moods| <= Sum(moods) <= 5 * |moods|
  {
    if |moods| > 0 {
      SumBounds(moods[1..]);
    }
  }

  /** Moods chosen with the buttons average somewhere on the scale. */
  lemma AverageOnScale(moods: seq<MoodEntry>)
    requires |moods| > 0 && OnScale(moods)
    ensures 1.0 <= AverageMood(moods) <= 5.0
  {
    SumBounds(moods);
    QuotientBounds(Sum(moods) as real, |moods| as real);
  }

  lemma QuotientBounds(s: real, n: real)
    requires n > 0.0 && n <= s <= 5.0 * n
    ensures 1.0 <= s / n <= 5.0
  {
  }
}
