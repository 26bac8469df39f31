/** The sticky-notes widget: one free-text note, an "editing" flag that
    shows the save button, and the `stickyNotes` storage slot. */
module Notes {
  import opened Options
  import opened Text
  import opened Store

  const NotesKey: string := "stickyNotes"

  datatype NotesWidget = NotesWidget(text: string, editing: bool, store: Store)

  /** The mount effect: a stored non-empty note is shown; otherwise the
      note stays empty. Nothing is being edited. */
  function Load(store: Store): (w: NotesWidget)
    ensures NotesKey in store && store[NotesKey] != "" ==> w.text == store[NotesKey]
    ensures NotesKey !in store || store[NotesKey] == "" ==> w.text == ""
    ensures !w.editing && w.store == store
  {
    NotesWidget(OrElse(Get(store, NotesKey), ""), false, store)
  }

  /** Typing: the text becomes what was typed and editing begins; storage
      is untouched. */
  function Change(w: NotesWidget, text: string): (r: NotesWidget)
    ensures r.text == text && r.editing && r.store == w.store
  {
    w.(text := text, editing := true)
  }

  /** The save button: the current text goes to storage as it is, and
      editing ends. */
  function Save(w: NotesWidget): (r: NotesWidget)
    ensures r.text == w.text && !r.editing
    ensures Get(r.store, NotesKey) == Some(w.text)
    ensures r.store.Keys == w.store.Keys + {NotesKey}
    ensures forall k :: k in w.store && k != NotesKey ==> k in r.store && r.store[k] == w.store[k]
  {
    NotesWidget(w.text, false, Set(w.store, NotesKey, w.text))
  }

  datatype KeyEvent = KeyEvent(key: string, ctrl: bool)

  /** The text area's key handler: Escape ends editing without saving and
      without reverting the text; Ctrl+Enter saves; other keys do nothing
      here. */
  function OnKey(w: NotesWidget, e: KeyEvent): (r: NotesWidget)
    ensures e.key == "Escape" ==> r == w.(editing := false)
    ensures e.key == "Enter" && e.ctrl ==> r == Save(w)
    ensures e.key != "Escape" && !(e.key == "Enter" && e.ctrl) ==> r == w
  {
    var w1 := if e.key == "Escape" then w.(editing := false) else w;
    if e.key == "Enter" && e.ctrl then Save(w1) else w1
  }

  /** A saved note is what the next mount shows, the empty note included. */
  lemma SaveThenLoad(w: NotesWidget)
    ensures Load(Save(w).store).text == w.text
  {
  }

  /** Escape leaves storage as it was, so an unsaved edit is lost on the next
      mount unless it is saved first. */
  lemma EscapeDoesNotSave(w: NotesWidget)
    ensures OnKey(w, KeyEvent("Escape", false)).store == w.store
    ensures OnKey(w, KeyEvent("Escape", true)).text == w.text
  {
  }
}
