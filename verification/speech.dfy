/** The one-shot speech recogniser shared by the search bar and the assistant:
    a microphone control that is either idle or listening. */
module Speech {

  datatype Listening = Idle | Listening

  /** The microphone button. Without a recogniser the browser offers nothing
      and the state stays as it is; with one, a press starts listening when
      idle and stops it when listening. */
  function Toggle(hasRecognizer: bool, st: Listening): (r: Listening)
    ensures !hasRecognizer ==> r == st
    ensures hasRecognizer ==> r != st
  {
    if !hasRecognizer then st
    else if st == Listening then Idle
    else Listening
  }

  /** Two presses of the button bring the control back where it was. */
  lemma ToggleTwice(hasRecognizer: bool, st: Listening)
    ensures Toggle(hasRecognizer, Toggle(hasRecognizer, st)) == st
  {
  }
}
