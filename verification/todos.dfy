/** The to-do widget: a list of items, newest first, each completed or not,
    and the text field new items are typed into. */
module Todos {
  import opened Options
  import opened Text
  import opened Lists

  /** One item. The id is the decimal rendering of the millisecond clock at
      creation, which is also the creation time. */
  datatype Todo = Todo(id: string, text: string, completed: bool, createdAt: nat)

  datatype TodoWidget = TodoWidget(todos: seq<Todo>, draft: string)

  function TodoId(t: Todo): string {
    t.id
  }

  /** On mount: the stored list if there is one, otherwise no items. */
  function Load(saved: Option<seq<Todo>>): (w: TodoWidget)
    ensures saved.None? ==> w.todos == []
    ensures saved.Some? ==> w.todos == saved.value
    ensures w.draft == ""
  {
    TodoWidget(saved.GetOr([]), "")
  }

  /** Typing into the field. */
  function Type(w: TodoWidget, text: string): (r: TodoWidget)
    ensures r.draft == text && r.todos == w.todos
  {
    w.(draft := text)
  }

  /** The add button (and Enter). A blank draft changes nothing, not even
      the field. Otherwise one open item holding the trimmed text goes on
      top of the unchanged list, and the field is cleared. */
  function Add(w: TodoWidget, now: nat): (r: TodoWidget)
    ensures IsBlank(w.draft) ==> r == w
    ensures !IsBlank(w.draft) ==>
      && |r.todos| == |w.todos| + 1
      && r.todos[1..] == w.todos
      && r.todos[0].text == Trim(w.draft) && r.todos[0].text != ""
      && !r.todos[0].completed
      && r.todos[0].id == NatToString(now)
      && r.draft == ""
  {
    var text := Trim(w.draft);
    if text != "" then
      TodoWidget([Todo(NatToString(now), text, false, now)] + w.todos, "")
    else w
  }

  function Flip(t: Todo, id: string): Todo {
    if t.id == id then t.(completed := !t.completed) else t
  }

  /** Ticking an item: every item with the id has its completion flipped;
      nothing else about any item, and no item's place, changes. */
  function Toggle(todos: seq<Todo>, id: string): (r: seq<Todo>)
    ensures |r| == |todos|
    ensures forall i :: 0 <= i < |r| ==>
      && r[i].id == todos[i].id && r[i].text == todos[i].text
      && r[i].createdAt == todos[i].createdAt
      && (r[i].completed <==> (if todos[i].id == id then !todos[i].completed else todos[i].completed))
  {
    seq(|todos|, i requires 0 <= i < |todos| => Flip(todos[i], id))
  }

  /** Ticking the same item twice is no change at all. */
  lemma ToggleTwice(todos: seq<Todo>, id: string)
    ensures Toggle(Toggle(todos, id), id) == todos
  {
    var r := Toggle(Toggle(todos, id), id);
    assert forall i :: 0 <= i < |todos| ==> r[i] == todos[i];
  }

  /** Ticking an id no item carries changes nothing. */
  lemma ToggleAbsent(todos: seq<Todo>, id: string)
    requires forall i :: 0 <= i < |todos| ==> todos[i].id != id
    ensures Toggle(todos, id) == todos
  {
  }

  /** The delete button: every item with the id goes, the rest stay. */
  function Delete(todos: seq<Todo>, id: string): (r: seq<Todo>)
    ensures forall i :: 0 <= i < |r| ==> r[i].id != id && r[i] in todos
    ensures forall i :: 0 <= i < |todos| && todos[i].id != id ==> todos[i] in r
  {
    RemoveKey(todos, TodoId, id)
  }

  /** Deleting keeps the remaining items in their order, and deleting an id
      nobody carries changes nothing. */
  lemma DeleteKeepsOrder(a: seq<Todo>, b: seq<Todo>, id: string)
    ensures Delete(a + b, id) == Delete(a, id) + Delete(b, id)
    ensures (forall i :: 0 <= i < |a| ==> a[i].id != id) ==> Delete(a, id) == a
  {
    RemoveKeyAppend(a, b, TodoId, id);
    if forall i :: 0 <= i < |a| ==> a[i].id != id {
      RemoveAbsentKey(a, TodoId, id);
    }
  }

  /** A freshly added item can be ticked and deleted by its id; deleting it
      right away restores the list, provided its id was new. */
  lemma AddThenDelete(w: TodoWidget, now: nat)
    requires !IsBlank(w.draft)
    requires forall i :: 0 <= i < |w.todos| ==> w.todos[i].id != NatToString(now)
    ensures Delete(Add(w, now).todos, NatToString(now)) == w.todos
  {
    var r := Add(w, now);
    assert r.todos == [r.todos[0]] + w.todos;
    RemoveKeyAppend([r.todos[0]], w.todos, TodoId, NatToString(now));
    RemoveAbsentKey(w.todos, TodoId, NatToString(now));
  }
}
