/** `Array.prototype.splice` as the shim performs it: in place, on arrays that may have holes. */
module Splice {
  import opened Numerals
  import opened Outcomes

  function At<V>(elements: map<nat, V>, i: int): Option<V> {
    if i >= 0 && i in elements then Some(elements[i]) else None
  }

  /** The slots from `lo` up to `hi` hold what `before` held `shift` slots further on. */
  ghost predicate Shifted<V>(elements: map<nat, V>, before: map<nat, V>, lo: int, hi: int, shift: int) {
    forall i :: lo <= i < hi ==> At(elements, i) == At(before, i + shift)
  }

  /** The items stand from `start` on; all other slots are as before. */
  ghost predicate Stored<V>(elements: map<nat, V>, before: map<nat, V>, start: nat, items: seq<V>) {
    && (forall i :: 0 <= i < |items| ==> At(elements, start + i) == Some(items[i]))
    && (forall i :: i < start || start + |items| <= i ==> At(elements, i) == At(before, i))
  }

  /** Nothing is stored at or beyond an index. */
  ghost predicate Below<V>(elements: map<nat, V>, bound: int) {
    forall i :: i in elements ==> i < bound
  }

  /** `len` slots from `from` on; a hole is `None`. */
  function Slots<V>(elements: map<nat, V>, from: nat, len: nat): (s: seq<Option<V>>)
    ensures |s| == len && forall i :: 0 <= i < len ==> s[i] == At(elements, from + i)
  {
    seq(len, i requires 0 <= i => At(elements, from + i))
  }

  function Present<V>(items: seq<V>): (s: seq<Option<V>>)
    ensures |s| == |items| && forall i :: 0 <= i < |items| ==> s[i] == Some(items[i])
  {
    seq(|items|, i requires 0 <= i < |items| => Some(items[i]))
  }

  /** Where the deletion starts: a negative start counts from the end. */
  function ActualStart(start: int, len: nat): (s: nat)
    ensures s <= len
  {
    if start < 0 then Max(len + start, 0) else Min(start, len)
  }

  function ActualDeleteCount(start: int, deleteCount: int, len: nat): (d: nat)
    ensures ActualStart(start, len) + d <= len
  {
    Min(Max(deleteCount, 0), len - ActualStart(start, len))
  }

  /** A sequence of slots without the holes at its end. */
  function Trimmed<V>(slots: seq<Option<V>>): (t: seq<Option<V>>)
    ensures t <= slots && (t == [] || t[|t| - 1].Some?)
    ensures forall i :: |t| <= i < |slots| ==> slots[i].None?
  {
    if slots == [] || slots[|slots| - 1].Some? then slots else Trimmed(slots[..|slots| - 1])
  }

  lemma TrimmedUnique<V>(slots: seq<Option<V>>, t: seq<Option<V>>)
    requires t <= slots && (t == [] || t[|t| - 1].Some?)
    requires forall i :: |t| <= i < |slots| ==> slots[i].None?
    ensures t == Trimmed(slots)
  {
    var u := Trimmed(slots);
    assert t == [] || slots[|t| - 1] == t[|t| - 1];
    assert u == [] || slots[|u| - 1] == u[|u| - 1];
    if |u| < |t| { assert false; }
    if |t| < |u| { assert false; }
  }

  lemma SlotsSlice<V>(elements: map<nat, V>, len: nat, from: nat, count: nat)
    requires from + count <= len
    ensures Slots(elements, 0, len)[from..from + count] == Slots(elements, from, count)
  {
  }

  class JsArray<V> {
    var elements: map<nat, V>
    var length: nat

    /** An array's indices are below its length. */
    ghost predicate Valid()
      reads this
    {
      Below(elements, length)
    }

    ghost function Contents(): (s: seq<Option<V>>)
      reads this
    {
      Slots(elements, 0, length)
    }

    constructor ()
      ensures Valid() && length == 0 && elements == map[]
    {
      elements, length := map[], 0;
    }

    method Put(i: nat, value: V)
      modifies this
      ensures elements == old(elements)[i := value] && length == Max(old(length), i + 1)
    {
      elements := elements[i := value];
      if i >= length { length := i + 1; }
    }

    method Delete(i: nat)
      modifies this
      ensures elements == old(elements) - {i} && length == old(length)
    {
      elements := elements - {i};
    }

    method SetLength(n: nat)
      requires Below(elements, n)
      modifies this
      ensures length == n && elements == old(elements)
    {
      elements := map i | i in elements && i < n :: elements[i];
      length := n;
    }

    /** Moves or deletes one slot, as both shifting loops do. */
    method Move(from: nat, to: nat)
      modifies this
      ensures elements == Moved(old(elements), from, to)
      ensures length == if from in old(elements) then Max(old(length), to + 1) else old(length)
    {
      if from in elements {
        Put(to, elements[from]);
      } else {
        Delete(to);
      }
    }

    /** The removed slots, without the holes at their end. */
    method Removed(start: nat, count: nat) returns (removed: JsArray<V>)
      requires Valid() && start + count <= length
      ensures fresh(removed) && removed.Valid()
      ensures removed.Contents() == Trimmed(Slots(elements, start, count))
    {
      removed := new JsArray();
      var k := 0;
      while k < count
        invariant 0 <= k <= count && removed.Valid() && removed.length <= k
        invariant Shifted(removed.elements, elements, 0, k, start)
        invariant removed.length > 0 ==> removed.length - 1 in removed.elements
      {
        ghost var had := removed.elements;
        if start + k in elements {
          removed.Put(k, elements[start + k]);
        }
        assert forall i :: 0 <= i < k ==> At(removed.elements, i) == At(had, i);
        k := k + 1;
      }
      assert forall i :: 0 <= i < count ==> Slots(elements, start, count)[i] == At(removed.elements, i);
      TrimmedUnique(Slots(elements, start, count), removed.Contents());
    }

    /** Shifts the tail down: `items` fewer slots are needed than were deleted. */
    method ShiftDown(start: nat, deleted: nat, items: nat)
      requires Valid() && items < deleted && start + deleted <= length
      modifies this
      ensures Below(elements, length - deleted + items) && length == old(length)
      ensures Shifted(elements, old(elements), 0, start, 0)
      ensures Shifted(elements, old(elements), start + items, length - deleted + items, deleted - items)
    {
      ghost var before := elements;
      var k := start;
      var maxK := length - deleted;
      while k < maxK
        invariant start <= k <= maxK && Valid() && length == old(length)
        invariant Shifted(elements, before, start + items, k + items, deleted - items)
        invariant Shifted(elements, before, 0, start, 0)
        invariant Shifted(elements, before, k + items, length, 0)
      {
        Move(k + deleted, k + items);
        k := k + 1;
      }
      ghost var moved := elements;
      k := length;
      var minK := length - deleted + items;
      while k > minK
        invariant minK <= k <= length && Below(elements, k) && length == old(length)
        invariant forall i :: i < k ==> At(elements, i) == At(moved, i)
      {
        Delete(k - 1);
        k := k - 1;
      }
    }

    /** Shifts the tail up, from its end. */
    method ShiftUp(start: nat, deleted: nat, items: nat)
      requires Valid() && items > deleted && start + deleted <= length
      modifies this
      ensures Below(elements, old(length) - deleted + items)
      ensures Shifted(elements, old(elements), 0, start, 0)
      ensures Shifted(elements, old(elements), start + items, old(length) - deleted + items, deleted - items)
    {
      ghost var before, len := elements, length;
      var k := length - deleted;
      while k > start
        invariant start <= k <= len - deleted && Below(elements, len - deleted + items)
        invariant Shifted(elements, before, k + items, len - deleted + items, deleted - items)
        invariant Shifted(elements, before, 0, k + deleted, 0)
      {
        Move(k + deleted - 1, k + items - 1);
        k := k - 1;
      }
    }

    /** Makes room for the items in place of the deleted slots. */
    method ShiftTail(start: nat, deleted: nat, items: nat)
      requires Valid() && start + deleted <= length
      modifies this
      ensures Below(elements, old(length) - deleted + items)
      ensures Shifted(elements, old(elements), 0, start, 0)
      ensures Shifted(elements, old(elements), start + items, old(length) - deleted + items, deleted - items)
    {
      if items < deleted {
        ShiftDown(start, deleted, items);
      } else if items > deleted {
        ShiftUp(start, deleted, items);
      }
    }

    /** Stores the items from `start` on. */
    method PutAll(start: nat, items: seq<V>)
      modifies this
      ensures Stored(elements, old(elements), start, items)
    {
      ghost var before := elements;
      var k := 0;
      while k < |items|
        invariant 0 <= k <= |items|
        invariant Stored(elements, before, start, items[..k])
      {
        Put(start + k, items[k]);
        k := k + 1;
      }
      assert items[..|items|] == items;
    }

    /** `start` and `deleteCount` after conversion to integers. The array becomes its prefix, the
        items and its suffix; the removed slots are returned without the holes at their end. */
    method Splice(start: int, deleteCount: int, items: seq<V>) returns (removed: JsArray<V>)
      requires Valid()
      modifies this
      ensures Valid() && fresh(removed) && removed.Valid()
      ensures Contents() == Spliced(old(Contents()), start, deleteCount, items)
      ensures var s, d := ActualStart(start, old(length)), ActualDeleteCount(start, deleteCount, old(length));
              removed.Contents() == Trimmed(old(Contents())[s..s + d])
    {
      hide Trimmed, ActualStart, ActualDeleteCount, Shifted, Below, Slots, Present, At, Stored, Spliced;
      ghost var before, len := elements, length;
      var s, d := ActualStart(start, length), ActualDeleteCount(start, deleteCount, length);
      removed := Removed(s, d);
      SlotsSlice(before, len, s, d);
      var n := length - d + |items|;
      ShiftTail(s, d, |items|);
      ghost var shifted := elements;
      PutAll(s, items);
      SplicedSlots(before, len, shifted, elements, start, deleteCount, items);
      SetLength(n);
    }
  }

  function Moved<V>(elements: map<nat, V>, from: nat, to: nat): (m: map<nat, V>)
    ensures forall i :: At(m, i) == if i == to then At(elements, from) else At(elements, i)
    ensures forall i :: i in m ==> i == to || i in elements
    ensures to in m <==> from in elements
  {
    if from in elements then elements[to := elements[from]] else elements - {to}
  }

  /** Section 15.4.4.12 of ECMA-262 edition 5.1: the prefix, the items, the suffix. */
  function Spliced<V>(slots: seq<Option<V>>, start: int, deleteCount: int, items: seq<V>): seq<Option<V>> {
    var s, d := ActualStart(start, |slots|), ActualDeleteCount(start, deleteCount, |slots|);
    slots[..s] + Present(items) + slots[s + d..]
  }

  /** A start inside the array is where the deletion starts, a negative one counts from the end, and
      one beyond either end is that end. */
  lemma StartIs(len: nat, back: nat, beyond: nat)
    ensures back <= len ==> ActualStart(back, len) == back
    ensures 0 < back <= len ==> ActualStart(0 - back as int, len) == len - back
    ensures back > len ==> ActualStart(0 - back as int, len) == 0
    ensures ActualStart(len + beyond, len) == len
  {
  }

  /** As many slots are deleted as asked for, none if that is negative, and no more than there are. */
  lemma CountIs(start: int, count: int, len: nat)
    ensures var d := ActualDeleteCount(start, count, len);
            d == if count < 0 then 0 else if count <= len - ActualStart(start, len) then count
                 else len - ActualStart(start, len)
  {
  }

  /** What is kept, added and returned: with start and count inside the array the slots between them
      are replaced; any other start or count does what the nearest one inside does. */
  lemma SplicedIs<V>(slots: seq<Option<V>>, start: int, count: int, items: seq<V>)
    ensures 0 <= start <= start + count <= |slots| ==>
              Spliced(slots, start, count, items) == slots[..start] + Present(items) + slots[start + count..]
    ensures start < 0 ==>
              Spliced(slots, start, count, items)
              == Spliced(slots, if |slots| + start < 0 then 0 else |slots| + start, count, items)
    ensures start > |slots| ==> Spliced(slots, start, count, items) == slots + Present(items)
    ensures count < 0 ==> Spliced(slots, start, count, items) == Spliced(slots, start, 0, items)
    ensures 0 <= start <= |slots| < start + count ==>
              Spliced(slots, start, count, items) == slots[..start] + Present(items)
  {
    if start > |slots| { assert slots[..|slots|] == slots && slots[|slots|..] == []; }
  }

  lemma StoredBelow<V>(shifted: map<nat, V>, after: map<nat, V>, s: nat, items: seq<V>, n: nat)
    requires Below(shifted, n) && Stored(after, shifted, s, items) && s + |items| <= n
    ensures Below(after, n)
  {
    forall i | i in after ensures i < n {
      if s + |items| <= i { assert At(after, i) == At(shifted, i); }
    }
  }

  lemma SplicedSlots<V>(before: map<nat, V>, len: nat, shifted: map<nat, V>, after: map<nat, V>,
                        start: int, deleteCount: int, items: seq<V>)
    requires var s, d := ActualStart(start, len), ActualDeleteCount(start, deleteCount, len);
             && Below(shifted, len - d + |items|) && Shifted(shifted, before, 0, s, 0)
             && Shifted(shifted, before, s + |items|, len - d + |items|, d - |items|)
             && Stored(after, shifted, s, items)
    ensures var n := len - ActualDeleteCount(start, deleteCount, len) + |items|;
            Below(after, n) && Slots(after, 0, n) == Spliced(Slots(before, 0, len), start, deleteCount, items)
  {
    var s, d := ActualStart(start, len), ActualDeleteCount(start, deleteCount, len);
    hide ActualStart, ActualDeleteCount;
    StoredBelow(shifted, after, s, items, len - d + |items|);
    var result := Slots(before, 0, len)[..s] + Present(items) + Slots(before, 0, len)[s + d..];
    forall i | 0 <= i < len - d + |items| ensures At(after, i) == result[i] {
      if s <= i < s + |items| { assert At(after, s + (i - s)) == Some(items[i - s]); }
    }
  }

  /** The returned array is the whole removed slice exactly when that slice does not end in a
      hole. */
  lemma RemovedIsSliceIff<V>(slots: seq<Option<V>>)
    ensures Trimmed(slots) == slots <==> slots == [] || slots[|slots| - 1].Some?
  {
  }
}
