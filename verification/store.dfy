/** The browser's `localStorage`, seen as a map from string keys to string
    values. Slots whose value is a JSON document are modelled by the owning
    widget with the decoded value directly; this module covers the slots the
    code reads as plain strings. */
module Store {
  import opened Options
  import opened Text

  type Store = map<string, string>

  /** `localStorage.getItem(key)`: `null` (here `None`) when never written. */
  function Get(st: Store, key: string): (r: Option<string>)
    ensures r.Some? <==> key in st
    ensures r.Some? ==> r.value == st[key]
  {
    if key in st then Some(st[key]) else None
  }

  /** `localStorage.setItem(key, value)`: replaces one slot, leaves the rest. */
  function Set(st: Store, key: string, value: string): (r: Store)
    ensures r.Keys == st.Keys + {key}
    ensures r[key] == value
    ensures forall k :: k in st && k != key ==> r[k] == st[k]
  {
    st[key := value]
  }

  /** What is written is what is read back, and other slots are untouched. */
  lemma GetAfterSet(st: Store, key: string, value: string, other: string)
    ensures Get(Set(st, key, value), key) == Some(value)
    ensures other != key ==> Get(Set(st, key, value), other) == Get(st, other)
  {
  }

  /** A non-empty written value survives the `||` default on the next read. */
  lemma OrElseAfterSet(st: Store, key: string, value: string, fallback: string)
    requires value != ""
    ensures OrElse(Get(Set(st, key, value), key), fallback) == value
  {
  }
}
