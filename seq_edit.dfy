/** Removing and inserting one element of a list by position: the
    `splice(i, 1)` and the index `filter` the editors use. */
module SeqEdit {

  /** The list without its element at `i`, the rest in order. */
  function RemoveAt<T>(xs: seq<T>, i: nat): (r: seq<T>)
    requires i < |xs|
    ensures |r| == |xs| - 1
    ensures forall j :: 0 <= j < i ==> r[j] == xs[j]
    ensures forall j :: i <= j < |r| ==> r[j] == xs[j + 1]
  {
    xs[..i] + xs[i + 1..]
  }

  /** The list with `x` placed at position `i`. */
  function InsertAt<T>(xs: seq<T>, i: nat, x: T): (r: seq<T>)
    requires i <= |xs|
    ensures |r| == |xs| + 1 && r[i] == x
  {
    xs[..i] + [x] + xs[i..]
  }

  /** Removing what was just inserted gives the list back, and putting the
      removed element back where it was also does. */
  lemma RemoveInsert<T>(xs: seq<T>, i: nat, x: T)
    requires i <= |xs|
    ensures RemoveAt(InsertAt(xs, i, x), i) == xs
  {
    assert InsertAt(xs, i, x)[..i] == xs[..i];
    assert InsertAt(xs, i, x)[i + 1..] == xs[i..];
  }

  lemma InsertRemove<T>(xs: seq<T>, i: nat)
    requires i < |xs|
    ensures InsertAt(RemoveAt(xs, i), i, xs[i]) == xs
  {
    var r := RemoveAt(xs, i);
    assert r[..i] == xs[..i];
    assert r[i..] == xs[i + 1..];
    assert xs == xs[..i] + [xs[i]] + xs[i + 1..];
  }

  /** Removing an element takes one copy of it out of the multiset. */
  lemma RemoveAtMultiset<T>(xs: seq<T>, i: nat)
    requires i < |xs|
    ensures multiset(RemoveAt(xs, i)) + multiset{xs[i]} == multiset(xs)
  {
    assert xs == xs[..i] + [xs[i]] + xs[i + 1..];
  }

  /** `xs.filter((_, k) => k !== index)`, walking the list from its start
      and keeping every element whose position is not `index`. */
  function WithoutIndex<T>(xs: seq<T>, index: int): seq<T> {
    if xs == [] then []
    else WithoutIndex(xs[..|xs| - 1], index) + (if |xs| - 1 != index then [xs[|xs| - 1]] else [])
  }

  /** The filter removes exactly the element at `index` when there is one,
      and copies the list otherwise. */
  lemma {:induction false} WithoutIndexIsRemoveAt<T>(xs: seq<T>, index: int)
    ensures 0 <= index < |xs| ==> WithoutIndex(xs, index) == RemoveAt(xs, index)
    ensures !(0 <= index < |xs|) ==> WithoutIndex(xs, index) == xs
  {
    if xs != [] {
      var init := xs[..|xs| - 1];
      var last := xs[|xs| - 1];
      WithoutIndexIsRemoveAt(init, index);
      if 0 <= index < |init| {
        assert WithoutIndex(xs, index) == RemoveAt(init, index) + [last];
        RemoveBeforeLast(xs, index);
      } else if index == |init| {
        assert WithoutIndex(xs, index) == init;
        assert xs[..index] + xs[index + 1..] == init;
      } else {
        assert WithoutIndex(xs, index) == init + [last];
        assert init + [last] == xs;
      }
    }
  }

  /** Removing an element before the last one and then appending the last
      one is removing it from the whole list. */
  lemma RemoveBeforeLast<T>(xs: seq<T>, index: nat)
    requires index < |xs| - 1
    ensures RemoveAt(xs[..|xs| - 1], index) + [xs[|xs| - 1]] == RemoveAt(xs, index)
  {
    var init := xs[..|xs| - 1];
    assert init[..index] == xs[..index];
    assert init[index + 1..] + [xs[|xs| - 1]] == xs[index + 1..];
  }
}
