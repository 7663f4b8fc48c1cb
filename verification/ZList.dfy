/** czmq's zlist: a list with one cursor, which the handlers iterate with while they change it. */
module ZLists {
  import opened Wrappers

  class ZList<T(==)> {
    var items: seq<T>
    var cursor: int      // -1 is the null cursor

    ghost predicate Valid() reads this { -1 <= cursor < |items| }

    function Current(): Option<T>
      requires Valid()
      reads this
    {
      if cursor < 0 then None else Some(items[cursor])
    }

    constructor ()
      ensures Valid() && items == []
    {
      items, cursor := [], -1;
    }

    method First() returns (r: Option<T>)
      requires Valid()
      modifies this
      ensures Valid() && items == old(items) && r == Current()
      ensures cursor == if items == [] then -1 else 0
    {
      cursor := if items == [] then -1 else 0;
      r := Current();
    }

    // After the last item the cursor is null; from a null cursor the next item is the first.
    method Next() returns (r: Option<T>)
      requires Valid()
      modifies this
      ensures Valid() && items == old(items) && r == Current()
      ensures cursor == if old(cursor) + 1 < |items| then old(cursor) + 1 else -1
    {
      cursor := if cursor + 1 < |items| then cursor + 1 else -1;
      r := Current();
    }

    method Append(x: T)
      requires Valid()
      modifies this
      ensures Valid() && items == old(items) + [x]
    {
      items, cursor := items + [x], -1;
    }

    // Removing the item under the cursor moves the cursor to its predecessor.
    method Remove(x: T)
      requires Valid()
      modifies this
      ensures Valid()
      ensures var k := IndexOf(old(items), x);
        if k < |old(items)|
        then items == old(items)[..k] + old(items)[k + 1..] && cursor == if k <= old(cursor) then old(cursor) - 1 else old(cursor)
        else items == old(items) && cursor == old(cursor)
    {
      var k := IndexOf(items, x);
      if k < |items| {
        items := items[..k] + items[k + 1..];
        if k <= cursor { cursor := cursor - 1; }
      }
    }
  }
}
