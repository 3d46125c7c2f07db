/** The cart badge of the navigation bar: the number of items in the cart, a
    fold over the cart lines, and how each cart operation moves it. */
module BadgeTotal {
  import opened Catalog
  import opened CartStore

  /** `cart.items.reduce((sum, item) => sum + item.count, 0)`: a left fold,
      0 for an empty cart. */
  function TotalItems(items: seq<CartLine>): (total: int)
    ensures items == [] ==> total == 0
  {
    if items == [] then 0 else TotalItems(items[..|items| - 1]) + items[|items| - 1].count
  }

  /** When every line holds at least one item, as in a well-formed cart, the
      badge shows at least the number of lines, and so is positive for a
      non-empty cart. */
  lemma {:induction false} TotalAtLeastLines(items: seq<CartLine>)
    requires forall k | 0 <= k < |items| :: items[k].count >= 1
    ensures TotalItems(items) >= |items|
  {
    if items != [] {
      var init := items[..|items| - 1];
      assert forall k | 0 <= k < |init| :: init[k].count >= 1 by {
        forall k | 0 <= k < |init| ensures init[k].count >= 1 {
          assert init[k] == items[k];
        }
      }
      TotalAtLeastLines(init);
    }
  }

  /** Appending a line adds its count. */
  lemma TotalAppend(items: seq<CartLine>, line: CartLine)
    ensures TotalItems(items + [line]) == TotalItems(items) + line.count
  {
    assert (items + [line])[..|items|] == items;
  }

  /** The total of two lists joined is the sum of their totals. */
  lemma {:induction false} TotalConcat(a: seq<CartLine>, b: seq<CartLine>)
    ensures TotalItems(a + b) == TotalItems(a) + TotalItems(b)
  {
    if b == [] {
      assert a + b == a;
    } else {
      var init := b[..|b| - 1];
      var last := b[|b| - 1];
      assert b == init + [last];
      assert a + b == (a + init) + [last];
      TotalConcat(a, init);
      TotalAppend(a + init, last);
      TotalAppend(init, last);
    }
  }

  /** Replacing one line changes the total by the difference of the counts. */
  lemma TotalUpdate(items: seq<CartLine>, i: nat, line: CartLine)
    requires i < |items|
    ensures TotalItems(items[i := line]) == TotalItems(items) - items[i].count + line.count
  {
    var before, after := items[..i], items[i + 1..];
    assert items == (before + [items[i]]) + after;
    assert items[i := line] == (before + [line]) + after;
    TotalConcat(before + [items[i]], after);
    TotalConcat(before + [line], after);
    TotalAppend(before, items[i]);
    TotalAppend(before, line);
  }

  /** Leaving one line out takes its count off the total. */
  lemma TotalWithout(before: seq<CartLine>, line: CartLine, after: seq<CartLine>)
    ensures TotalItems(before + after) == TotalItems(before + [line] + after) - line.count
  {
    TotalConcat(before + [line], after);
    TotalConcat(before, after);
    TotalAppend(before, line);
  }

  /** Dropping the line at a position takes its count off the total. */
  lemma TotalDropAt(items: seq<CartLine>, i: nat)
    requires i < |items|
    ensures TotalItems(items[..i] + items[i + 1..]) == TotalItems(items) - items[i].count
  {
    SplitAt(items, i);
    TotalWithout(items[..i], items[i], items[i + 1..]);
  }

  /** A list is the lines before a position, the line there and those after. */
  lemma SplitAt(items: seq<CartLine>, i: nat)
    requires i < |items|
    ensures items == items[..i] + [items[i]] + items[i + 1..]
  {
  }

  /** Every `addItem` raises the badge by exactly one, whether it adds to a line
      or appends one. */
  lemma AddItemTotal(items: seq<CartLine>, product: Product, selection: Selection)
    ensures TotalItems(Added(items, product, selection)) == TotalItems(items) + 1
  {
    var i := FindIndex(items, LineId(product, selection));
    if i != -1 {
      TotalUpdate(items, i, items[i].(count := items[i].count + 1));
    } else {
      TotalAppend(items, NewLine(product, selection));
    }
  }

  /** In a well-formed cart, `removeItem` of an id in the cart lowers the badge
      by exactly one, and of an id not in the cart leaves it as it was. */
  lemma RemoveItemTotal(items: seq<CartLine>, id: string)
    requires Wellformed(items)
    ensures FindIndex(items, id) != -1 ==> TotalItems(Removed(items, id)) == TotalItems(items) - 1
    ensures FindIndex(items, id) == -1 ==> TotalItems(Removed(items, id)) == TotalItems(items)
  {
    var i := FindIndex(items, id);
    if i != -1 {
      if items[i].count > 1 {
        RemoveOneOfManyTotal(items, id);
      } else {
        assert items[i].count == 1 by {
          assert LineWellformed(items[i]);
        }
        assert UniqueIds(items);
        RemoveLastItemTotal(items, id);
      }
    }
  }

  /** Removing one of several items of a line lowers the badge by one. */
  lemma RemoveOneOfManyTotal(items: seq<CartLine>, id: string)
    requires FindIndex(items, id) != -1 && items[FindIndex(items, id)].count > 1
    ensures TotalItems(Removed(items, id)) == TotalItems(items) - 1
  {
    var i := FindIndex(items, id);
    TotalUpdate(items, i, items[i].(count := items[i].count - 1));
  }

  /** Removing the only item of a line, in a cart whose ids are distinct,
      lowers the badge by one. */
  lemma RemoveLastItemTotal(items: seq<CartLine>, id: string)
    requires UniqueIds(items)
    requires FindIndex(items, id) != -1 && items[FindIndex(items, id)].count == 1
    ensures TotalItems(Removed(items, id)) == TotalItems(items) - 1
  {
    var i := FindIndex(items, id);
    RemoveDeletes(items, id);
    TotalDropAt(items, i);
  }

  /** Adding a product with one colour and one size twice, without a
      selection, gives one line of two items under the id "p1:c1:s1"; removing
      that id once leaves one item on the line. */
  method AddTwiceRemoveOnce() returns (cart: Cart)
    ensures |cart.items| == 1 && cart.items[0].cartItemId == "p1:c1:s1"
    ensures cart.items[0].count == 1 && TotalItems(cart.items) == 1
    ensures cart.events == [ItemAdded, ItemAdded, ItemRemoved]
  {
    var product := Product("p1", [Variant("c1", "Red", "#f00")], [Variant("s1", "Small", "S")], map[]);
    cart := new Cart();
    cart.AddItem(product, Selection(None, None));
    assert cart.items == [NewLine(product, Selection(None, None))];
    cart.AddItem(product, Selection(None, None));
    assert LineId(product, Selection(None, None)) == "p1:c1:s1";
    assert cart.items[0].count == 2;
    cart.RemoveItem("p1:c1:s1");
    assert cart.items[0].count == 1;
  }
}
