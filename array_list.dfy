/** `ArrayList<T>`: a growable list over a JavaScript array, and its iterator. */
module ArrayLists {
  import opened Exceptions
  import opened Options

  /** `Array.prototype.indexOf`: the first index holding `x` (compared with `===`), or -1. */
  function IndexOf<T(==)>(s: seq<T>, x: T): (i: int)
    ensures -1 <= i < |s|
    ensures i == -1 <==> x !in s
    ensures 0 <= i ==> s[i] == x && x !in s[..i]
  {
    if |s| == 0 then -1
    else if s[0] == x then 0
    else
      var j := IndexOf(s[1..], x);
      assert s[1..][..if j < 0 then 0 else j] == s[1..if j < 0 then 1 else j + 1];
      if j == -1 then -1 else j + 1
  }

  /** Where `splice(start, 1)` starts on an array of length `len`:
      a negative start counts from the end, and the start is clamped to `0..len`. */
  function SpliceStart(len: nat, start: int): (k: nat)
    ensures k <= len
  {
    if start < 0 then (if len + start < 0 then 0 else len + start)
    else if start < len then start else len
  }

  /** The array left by `splice(start, 1)`: one element removed at the clamped start, if any. */
  function Spliced<T>(s: seq<T>, start: int): seq<T> {
    var k := SpliceStart(|s|, start);
    if k < |s| then s[..k] + s[k + 1..] else s
  }

  /** The specification of `removeValue`: drop the first element equal to `x`. */
  function RemoveFirst<T(==)>(s: seq<T>, x: T): seq<T> {
    if s == [] then []
    else if s[0] == x then s[1..]
    else [s[0]] + RemoveFirst(s[1..], x)
  }

  /** `remove(i)` on an in-range index deletes element `i` and shifts the later ones down. */
  lemma SplicedInRange<T>(s: seq<T>, i: int)
    requires 0 <= i < |s|
    ensures |Spliced(s, i)| == |s| - 1
    ensures forall j :: 0 <= j < i ==> Spliced(s, i)[j] == s[j]
    ensures forall j :: i <= j < |s| - 1 ==> Spliced(s, i)[j] == s[j + 1]
  {
  }

  /** `remove` with an index past the end changes nothing; a negative one counts from the end,
      and one before the start of the list removes the first element. */
  lemma SplicedOutOfRange<T>(s: seq<T>, i: int)
    ensures |s| <= i ==> Spliced(s, i) == s
    ensures -|s| <= i < 0 ==> Spliced(s, i) == Spliced(s, |s| + i)
    ensures i < -|s| ==> Spliced(s, i) == Spliced(s, 0)
  {
  }

  /** Splicing one past the head keeps the head and splices the tail. */
  lemma SplicedTail<T>(s: seq<T>, j: nat)
    requires j + 1 < |s|
    ensures Spliced(s, j + 1) == [s[0]] + Spliced(s[1..], j)
  {
    assert s[..j + 1] == [s[0]] + s[1..][..j];
    assert s[j + 2..] == s[1..][j + 1..];
  }

  /** `removeValue` (indexOf, then splice when found) removes exactly the first occurrence. */
  lemma {:induction false} RemoveValueIsRemoveFirst<T>(s: seq<T>, x: T)
    ensures IndexOf(s, x) >= 0 ==> Spliced(s, IndexOf(s, x)) == RemoveFirst(s, x)
    ensures IndexOf(s, x) < 0 ==> RemoveFirst(s, x) == s
  {
    if s != [] && s[0] != x {
      RemoveValueIsRemoveFirst(s[1..], x);
      var j := IndexOf(s[1..], x);
      if j >= 0 {
        SplicedTail(s, j);
      } else {
        assert s == [s[0]] + s[1..];
      }
    }
  }

  /** Removing a value just appended to a list that did not hold it gives the list back. */
  lemma {:induction false} RemoveFirstAppended<T>(s: seq<T>, x: T)
    requires x !in s
    ensures RemoveFirst(s + [x], x) == s
  {
    if s != [] {
      assert (s + [x])[1..] == s[1..] + [x];
      RemoveFirstAppended(s[1..], x);
    }
  }

  /** Removing the first occurrence takes one copy of `x` out of the multiset, or none if absent. */
  lemma {:induction false} RemoveFirstMultiset<T>(s: seq<T>, x: T)
    ensures multiset(RemoveFirst(s, x)) == multiset(s) - multiset{x}
    ensures |RemoveFirst(s, x)| == if x in s then |s| - 1 else |s|
    ensures x !in s ==> RemoveFirst(s, x) == s
  {
    if s != [] {
      assert s == [s[0]] + s[1..];
      if s[0] != x {
        RemoveFirstMultiset(s[1..], x);
      }
    }
  }

  /** `ArrayListIterator`: walks the live array of `source`. */
  class ArrayListIterator<T(==)> {
    const source: ArrayList<T>
    var idx: nat

    constructor (source: ArrayList<T>)
      ensures this.source == source && idx == 0
    {
      this.source := source;
      idx := 0;
    }

    /** `hasNext`: the next read of the live list yields an element, not `undefined`. */
    predicate HasNext()
      reads this, source
      ensures HasNext() <==> source.Get(idx).Val?
    {
      idx < |source.list|
    }

    /** `next`: the current element, advancing; at the end, `NoSuchElementException`. */
    method Next() returns (r: Completion<T>)
      modifies this
      ensures old(HasNext()) ==> r == Returned(source.list[old(idx)]) && idx == old(idx) + 1
      ensures !old(HasNext()) ==> r == Threw(NoSuchElement) && idx == old(idx)
    {
      if !HasNext() {
        return Threw(NoSuchElement);
      }
      r := Returned(source.list[idx]);
      idx := idx + 1;
    }
  }

  class ArrayList<T(==)> {
    var list: seq<T>

    /** `new ArrayList(...items)` holds exactly the items, in order. */
    constructor (items: seq<T>)
      ensures list == items
    {
      list := items;
    }

    method Iterator() returns (it: ArrayListIterator<T>)
      ensures fresh(it) && it.source == this && it.idx == 0
    {
      it := new ArrayListIterator(this);
    }

    /** `get`: out of range, a JavaScript array read gives `undefined`. */
    function Get(idx: int): (r: Nullable<T>)
      reads this
      ensures r != Null
      ensures r.Val? <==> 0 <= idx < |list|
      ensures r.Val? ==> r.value == list[idx]
    {
      if 0 <= idx < |list| then Val(list[idx]) else Undefined
    }

    method Set(idx: int, value: T)
      requires 0 <= idx < |list|
      modifies this
      ensures list == old(list)[idx := value]
      ensures Get(idx) == Val(value)
      ensures forall i :: i != idx ==> Get(i) == old(Get(i))
    {
      list := list[idx := value];
    }

    method PushBack(value: T)
      modifies this
      ensures list == old(list) + [value]
      ensures |list| == old(|list|) + 1 && list[|list| - 1] == value
      ensures forall i :: 0 <= i < old(|list|) ==> Get(i) == old(Get(i))
    {
      list := list + [value];
    }

    /** `remove(idx)`, that is `splice(idx, 1)`. */
    method Remove(idx: int)
      modifies this
      ensures list == Spliced(old(list), idx)
    {
      var k := SpliceStart(|list|, idx);
      if k < |list| {
        list := list[..k] + list[k + 1..];
      }
    }

    method RemoveValue(value: T)
      modifies this
      ensures list == RemoveFirst(old(list), value)
    {
      RemoveValueIsRemoveFirst(list, value);
      var i := IndexOf(list, value);
      if i > -1 {
        Remove(i);
      }
    }

    /** `forEach`: the callback receives every element exactly once, in index order. */
    method ForEach() returns (visited: seq<T>)
      ensures visited == list
    {
      var it := Iterator();
      visited := [];
      while it.HasNext()
        invariant it.source == this && it.idx <= |list|
        invariant visited == list[..it.idx]
        decreases |list| - it.idx
      {
        var r := it.Next();
        visited := visited + [r.value];
      }
    }
  }
}
