/** The web search bar: a query field, a microphone control, and the
    search tabs it opens. `encode` is the browser's `encodeURIComponent`. */
module Search {
  import opened Text
  import opened Speech

  const SearchPrefix: string := "https://www.google.com/search?q="

  datatype SearchBar = SearchBar(query: string, speech: Listening, hasRecognizer: bool)

  /** A new state together with the tabs an event opened. */
  datatype Step = Step(bar: SearchBar, tabs: seq<string>)

  /** On mount: an empty query, not listening. */
  function Initial(hasRecognizer: bool): (b: SearchBar)
    ensures b.query == "" && b.speech == Idle && b.hasRecognizer == hasRecognizer
  {
    SearchBar("", Idle, hasRecognizer)
  }

  /** `handleSearch(q)`: a blank query opens nothing; any other opens one
      search tab for the query as typed, encoded, untrimmed. */
  function SearchTabs(q: string, encode: string -> string): (tabs: seq<string>)
    ensures IsBlank(q) ==> tabs == []
    ensures !IsBlank(q) ==> |tabs| == 1 && StartsWith(tabs[0], SearchPrefix)
    ensures !IsBlank(q) ==> tabs[0][|SearchPrefix|..] == encode(q)
  {
    if Trim(q) != "" then
      StartsWithPrefix(SearchPrefix, encode(q));
      [SearchPrefix + encode(q)]
    else []
  }

  function Type(b: SearchBar, text: string): (r: SearchBar)
    ensures r.query == text
    ensures r.(query := b.query) == b
  {
    b.(query := text)
  }

  /** The field's key handler: Enter searches the current query. */
  function OnKey(b: SearchBar, key: string, encode: string -> string): (s: Step)
    ensures s.bar == b
    ensures key == "Enter" ==> s.tabs == SearchTabs(b.query, encode)
    ensures key != "Enter" ==> s.tabs == []
  {
    Step(b, if key == "Enter" then SearchTabs(b.query, encode) else [])
  }

  /** The microphone button. */
  function ToggleVoice(b: SearchBar): (r: SearchBar)
    ensures !b.hasRecognizer ==> r == b
    ensures b.hasRecognizer ==> r.speech != b.speech
    ensures r.(speech := b.speech) == b
  {
    b.(speech := Toggle(b.hasRecognizer, b.speech))
  }

  /** A recognised phrase becomes the query and is searched at once; the
      listening state is left to the end event. */
  function OnResult(b: SearchBar, transcript: string, encode: string -> string): (s: Step)
    ensures s.bar.query == transcript && s.bar.(query := b.query) == b
    ensures s.tabs == SearchTabs(transcript, encode)
  {
    Step(b.(query := transcript), SearchTabs(transcript, encode))
  }

  /** The recogniser's end event: back to idle. */
  function OnEnd(b: SearchBar): (r: SearchBar)
    ensures r.speech == Idle && r.(speech := b.speech) == b
  {
    b.(speech := Idle)
  }

  /** Speaking a phrase opens the same tabs as typing it and pressing Enter. */
  lemma VoiceMatchesTyping(b: SearchBar, transcript: string, encode: string -> string)
    ensures OnResult(b, transcript, encode).tabs == OnKey(Type(b, transcript), "Enter", encode).tabs
  {
  }
}
