/** JavaScript's `Array.prototype.filter`, the list operation every list
    widget is built from, with the facts the widgets rely on, and the
    remove-by-id that three of them share. */
module Lists {
  import opened Options

  /** The elements of `xs` satisfying `p`, in their original order. */
  function Filter<T>(xs: seq<T>, p: T -> bool): (r: seq<T>)
    ensures |r| <= |xs|
    ensures forall i :: 0 <= i < |r| ==> p(r[i]) && r[i] in xs
    ensures forall i :: 0 <= i < |xs| && p(xs[i]) ==> xs[i] in r
  {
    if |xs| == 0 then []
    else (if p(xs[0]) then [xs[0]] else []) + Filter(xs[1..], p)
  }

  /** How many elements of `xs` satisfy `p`. */
  function Count<T>(xs: seq<T>, p: T -> bool): (n: nat)
    ensures n <= |xs|
    ensures n == 0 <==> forall i :: 0 <= i < |xs| ==> !p(xs[i])
  {
    if |xs| == 0 then 0
    else (if p(xs[0]) then 1 else 0) + Count(xs[1..], p)
  }

  /** Filtering distributes over concatenation: the kept elements of `a`
      come first, in order, then those of `b`. With the one-element case
      this pins the result down: a filter keeps order. */
  lemma {:induction false} FilterAppend<T>(a: seq<T>, b: seq<T>, p: T -> bool)
    ensures Filter(a + b, p) == Filter(a, p) + Filter(b, p)
  {
    if |a| > 0 {
      assert (a + b)[1..] == a[1..] + b;
      FilterAppend(a[1..], b, p);
    } else {
      assert a + b == b;
    }
  }

  /** A filter that rejects nothing changes nothing. */
  lemma {:induction false} FilterKeepsAll<T>(xs: seq<T>, p: T -> bool)
    requires forall i :: 0 <= i < |xs| ==> p(xs[i])
    ensures Filter(xs, p) == xs
  {
    if |xs| > 0 {
      FilterKeepsAll(xs[1..], p);
    }
  }

  /** The filter keeps exactly as many elements as satisfy the predicate. */
  lemma {:induction false} FilterLength<T>(xs: seq<T>, p: T -> bool)
    ensures |Filter(xs, p)| == Count(xs, p)
  {
    if |xs| > 0 {
      FilterLength(xs[1..], p);
    }
  }

  /** When `q` is the negation of `p` on the elements of `xs`, every element
      is counted by exactly one of them. */
  lemma {:induction false} CountSplit<T>(xs: seq<T>, p: T -> bool, q: T -> bool)
    requires forall i :: 0 <= i < |xs| ==> (q(xs[i]) <==> !p(xs[i]))
    ensures Count(xs, p) + Count(xs, q) == |xs|
  {
    if |xs| > 0 {
      CountSplit(xs[1..], p, q);
    }
  }

  /** Filtering by the same predicate twice is filtering once. */
  lemma FilterIdempotent<T>(xs: seq<T>, p: T -> bool)
    ensures Filter(Filter(xs, p), p) == Filter(xs, p)
  {
    FilterKeepsAll(Filter(xs, p), p);
  }

  /** `x => key(x) == k` as a value that is the same wherever it is built. */
  function KeyIs<T>(key: T -> string, k: string): T -> bool {
    x => key(x) == k
  }

  /** `x => key(x) !== k`. */
  function KeyIsNot<T>(key: T -> string, k: string): T -> bool {
    x => key(x) != k
  }

  /** What the two key tests say of one element. */
  lemma KeyIsApply<T>(key: T -> string, k: string, x: T)
    ensures KeyIs(key, k)(x) <==> key(x) == k
    ensures KeyIsNot(key, k)(x) <==> key(x) != k
  {
  }

  /** `xs.findIndex(p)`, with `None` for JavaScript's -1: the first position
      whose element satisfies `p`. */
  function FirstIndex<T>(xs: seq<T>, p: T -> bool): (r: Option<nat>)
    ensures r.Some? ==> r.value < |xs| && p(xs[r.value])
    ensures r.Some? ==> forall j :: 0 <= j < r.value ==> !p(xs[j])
    ensures r.None? ==> forall j :: 0 <= j < |xs| ==> !p(xs[j])
  {
    if |xs| == 0 then None
    else if p(xs[0]) then Some(0)
    else match FirstIndex(xs[1..], p)
      case None => None
      case Some(i) => Some(i + 1)
  }

  /** `xs.filter(x => x.id !== id)`: drops every element whose key is `id`.
      No survivor carries the key, every element with another key survives,
      and the number dropped is the number that carried it. */
  function RemoveKey<T>(xs: seq<T>, key: T -> string, id: string): (r: seq<T>)
    ensures forall i :: 0 <= i < |r| ==> key(r[i]) != id && r[i] in xs
    ensures forall i :: 0 <= i < |xs| && key(xs[i]) != id ==> xs[i] in r
    ensures |r| == |xs| - Count(xs, KeyIs(key, id))
  {
    FilterLength(xs, KeyIsNot(key, id));
    CountSplit(xs, KeyIs(key, id), KeyIsNot(key, id));
    Filter(xs, KeyIsNot(key, id))
  }

  /** Removing an id nobody carries changes nothing. */
  lemma RemoveAbsentKey<T>(xs: seq<T>, key: T -> string, id: string)
    requires forall i :: 0 <= i < |xs| ==> key(xs[i]) != id
    ensures RemoveKey(xs, key, id) == xs
  {
    FilterKeepsAll(xs, KeyIsNot(key, id));
  }

  /** Removal keeps the survivors in their original order: it works on each
      part of a list separately. */
  lemma RemoveKeyAppend<T>(a: seq<T>, b: seq<T>, key: T -> string, id: string)
    ensures RemoveKey(a + b, key, id) == RemoveKey(a, key, id) + RemoveKey(b, key, id)
  {
    FilterAppend(a, b, KeyIsNot(key, id));
  }

  /** Removing the same id twice is removing it once. */
  lemma RemoveKeyIdempotent<T>(xs: seq<T>, key: T -> string, id: string)
    ensures RemoveKey(RemoveKey(xs, key, id), key, id) == RemoveKey(xs, key, id)
  {
    FilterIdempotent(xs, KeyIsNot(key, id));
  }

  /** A filter that accepts nothing leaves nothing. */
  lemma {:induction false} FilterNone<T>(xs: seq<T>, p: T -> bool)
    requires forall i :: 0 <= i < |xs| ==> !p(xs[i])
    ensures Filter(xs, p) == []
  {
    if |xs| > 0 {
      FilterNone(xs[1..], p);
    }
  }

  /** A one-element list is kept or dropped whole. */
  lemma FilterSingleton<T>(x: T, p: T -> bool)
    ensures Filter([x], p) == if p(x) then [x] else []
  {
    assert [x][1..] == [];
  }
}
