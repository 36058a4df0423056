/** The CZMQ list that the sources iterate and edit (zlistx), with the cursor contract documented at
    bindings/python_cffi/malamute_cffi/cdefs.py:1798-1888. */
module ZLists {
  import opened Options

  /** Handles are positions; they are used at once, before the list changes again. */
  class ZList<T> {
    var items: seq<T>
    var cursor: int        // position of the current item, or -1 at the list head

    predicate Valid()
      reads this
    {
      -1 <= cursor < |items|
    }

    constructor ()
      ensures Valid() && items == [] && cursor == -1
    {
      items, cursor := [], -1;
    }

    predicate AtItem()
      reads this
    {
      0 <= cursor < |items|
    }

    method First() returns (item: Option<T>)
      requires Valid()
      modifies this`cursor
      ensures Valid()
      ensures items == [] ==> item == None && cursor == -1
      ensures items != [] ==> item == Some(items[0]) && cursor == 0
    {
      cursor := if items == [] then -1 else 0;
      item := if items == [] then None else Some(items[0]);
    }

    /** The next item, or None after the last one, which leaves the cursor at the list head. */
    method Next() returns (item: Option<T>)
      requires Valid()
      modifies this`cursor
      ensures Valid()
      ensures old(cursor) + 1 == |items| ==> item == None && cursor == -1
      ensures old(cursor) + 1 < |items| ==> cursor == old(cursor) + 1 && item == Some(items[cursor])
    {
      cursor := if cursor + 1 < |items| then cursor + 1 else -1;
      item := if cursor == -1 then None else Some(items[cursor]);
    }

    /** Removes the item at a handle, the first one for a null handle. A cursor on that item moves
        to the item before it; any other cursor stays on its item. */
    method Detach(handle: Option<nat>) returns (item: Option<T>)
      requires Valid() && (handle.Some? ==> handle.value < |items|)
      modifies this
      ensures Valid()
      ensures handle == None && old(items) == [] ==> item == None && items == [] && cursor == old(cursor)
      ensures !(handle == None && old(items) == []) ==>
                var k := if handle.Some? then handle.value else 0;
                && item == Some(old(items)[k])
                && items == old(items)[..k] + old(items)[k + 1..]
                && cursor == if old(cursor) >= k then old(cursor) - 1 else old(cursor)
    {
      if handle == None && items == [] {
        return None;
      }
      var k := if handle.Some? then handle.value else 0;
      item := Some(items[k]);
      items := items[..k] + items[k + 1..];
      cursor := if cursor >= k then cursor - 1 else cursor;
    }

    /** Appends an item and resets the cursor to the list head. */
    method AddEnd(x: T)
      modifies this
      ensures Valid() && items == old(items) + [x] && cursor == -1
    {
      items := items + [x];
      cursor := -1;
    }

    /** Moves an item to the end; the cursor stays on its item. */
    method MoveEnd(handle: nat)
      requires Valid() && handle < |items|
      modifies this
      ensures Valid()
      ensures items == old(items)[..handle] + old(items)[handle + 1..] + [old(items)[handle]]
      ensures cursor == if old(cursor) == handle then |items| - 1
                        else if old(cursor) > handle then old(cursor) - 1 else old(cursor)
    {
      cursor := if cursor == handle then |items| - 1 else if cursor > handle then cursor - 1 else cursor;
      items := items[..handle] + items[handle + 1..] + [items[handle]];
    }
  }

  /** zlistx_find: the first position of an item; the cursor moves there if it is found. */
  method Find<T(==)>(list: ZList<T>, x: T) returns (handle: Option<nat>)
    requires list.Valid()
    modifies list`cursor
    ensures list.Valid()
    ensures handle == None ==> x !in list.items && list.cursor == old(list.cursor)
    ensures handle.Some? ==> handle.value < |list.items| && list.items[handle.value] == x
                             && x !in list.items[..handle.value] && list.cursor == handle.value
  {
    var i := 0;
    while i < |list.items|
      invariant i <= |list.items| && x !in list.items[..i]
    {
      if list.items[i] == x {
        list.cursor := i;
        return Some(i);
      }
      i := i + 1;
    }
    return None;
  }
}
