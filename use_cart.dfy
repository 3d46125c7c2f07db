/** The persisted cart store: an ordered list of cart lines keyed by a variant
    id derived from the product and its resolved colour and size, with the
    operations add, remove and remove-all, and the schema migration applied to
    an on-device snapshot. */
module CartStore {
  import opened Catalog

  /** The separator and the placeholder used in cart item ids. */
  const Separator: char := ':'
  const Placeholder: string := "none"

  /** The schema version the store writes. */
  const CurrentVersion: int := 2

  // ---------------------------------------------------------------------------
  // Variant identity
  // ---------------------------------------------------------------------------

  /** One component of an id: an absent or empty id becomes the placeholder. */
  function IdPart(id: Option<string>): (part: string)
    ensures part != ""
    ensures id.Some? && id.value != "" ==> part == id.value
    ensures id.None? || id.value == "" ==> part == Placeholder
  {
    if id.Some? && id.value != "" then id.value else Placeholder
  }

  /** The cart item id: product id, colour part and size part joined by ':'. */
  function ItemId(productId: string, colorId: Option<string>, sizeId: Option<string>): (id: string)
    ensures |id| == |productId| + |IdPart(colorId)| + |IdPart(sizeId)| + 2
    ensures id[..|productId|] == productId && id[|productId|] == Separator
  {
    productId + [Separator] + IdPart(colorId) + [Separator] + IdPart(sizeId)
  }

  /** The text before the first separator and the text after it, if `s` holds one. */
  function SplitAtSeparator(s: string): (r: Option<(string, string)>)
    ensures r.Some? ==> Separator !in r.value.0 && s == r.value.0 + [Separator] + r.value.1
    ensures r.None? <==> Separator !in s
  {
    if s == "" then None
    else if s[0] == Separator then Some(("", s[1..]))
    else match SplitAtSeparator(s[1..])
      case None => None
      case Some((before, after)) => Some(([s[0]] + before, after))
  }

  /** Reads an item id back into its product id, colour part and size part. */
  function ParseItemId(s: string): Option<(string, string, string)> {
    match SplitAtSeparator(s)
    case None => None
    case Some((productId, rest)) =>
      match SplitAtSeparator(rest)
      case None => None
      case Some((color, size)) => Some((productId, color, size))
  }

  /** Splitting `a + ":" + b` where `a` has no separator gives back `a` and `b`. */
  lemma {:induction false} SplitJoined(a: string, b: string)
    requires Separator !in a
    ensures SplitAtSeparator(a + [Separator] + b) == Some((a, b))
  {
    if a != "" {
      var s := a + [Separator] + b;
      assert s[0] == a[0] != Separator;
      assert s[1..] == a[1..] + [Separator] + b;
      SplitJoined(a[1..], b);
      assert [a[0]] + a[1..] == a;
    } else {
      assert a + [Separator] + b == [Separator] + b;
    }
  }

  /** The id can be read back into its three parts when neither the product id
      nor the colour part contains the separator (the size part may). */
  lemma ParseItemIdRoundTrip(productId: string, colorId: Option<string>, sizeId: Option<string>)
    requires Separator !in productId && Separator !in IdPart(colorId)
    ensures ParseItemId(ItemId(productId, colorId, sizeId))
         == Some((productId, IdPart(colorId), IdPart(sizeId)))
  {
    var rest := IdPart(colorId) + [Separator] + IdPart(sizeId);
    assert ItemId(productId, colorId, sizeId) == productId + [Separator] + rest;
    SplitJoined(productId, rest);
    SplitJoined(IdPart(colorId), IdPart(sizeId));
  }

  /** A selection with the empty string read as "no selection". */
  function Normalized(id: Option<string>): Option<string> {
    if id.Some? && id.value == "" then None else id
  }

  /** Ids are injective on product ids and colour ids free of ':' and on
      colour and size ids other than the literal placeholder; empty and absent
      ids count as the same selection. */
  lemma ItemIdInjective(p: string, c: Option<string>, z: Option<string>,
                        p': string, c': Option<string>, z': Option<string>)
    requires Separator !in p && Separator !in IdPart(c)
    requires Separator !in p' && Separator !in IdPart(c')
    requires c != Some(Placeholder) && z != Some(Placeholder)
    requires c' != Some(Placeholder) && z' != Some(Placeholder)
    ensures ItemId(p, c, z) == ItemId(p', c', z')
        <==> p == p' && Normalized(c) == Normalized(c') && Normalized(z) == Normalized(z')
  {
    if ItemId(p, c, z) == ItemId(p', c', z') {
      ParseItemIdRoundTrip(p, c, z);
      ParseItemIdRoundTrip(p', c', z');
    }
  }

  /** Without those side conditions ids collide: a real colour id equal to the
      placeholder reads as "no colour", and a ':' inside a product id shifts the parts. */
  lemma ItemIdCollisions()
    ensures ItemId("p1", Some("none"), None) == ItemId("p1", None, None)
    ensures ItemId("a:b", None, None) == ItemId("a", Some("b"), Some("none:none"))
  {
  }

  // ---------------------------------------------------------------------------
  // Selection resolution
  // ---------------------------------------------------------------------------

  /** The optional colour and size a caller pins; absence of a selection
      object is `Selection(None, None)`. */
  datatype Selection = Selection(colorId: Option<string>, sizeId: Option<string>)

  /** A pinned, non-empty id wins; otherwise the first listed variant's id in
      catalog order; with no variants the result stays absent. */
  function Resolve(pinned: Option<string>, variants: seq<Variant>): (r: Option<string>)
    ensures pinned.Some? && pinned.value != "" ==> r == pinned
    ensures Normalized(pinned).None? && |variants| > 0 ==> r == Some(variants[0].id)
    ensures r.None? <==> Normalized(pinned).None? && |variants| == 0
  {
    if pinned.Some? && pinned.value != "" then pinned
    else if |variants| > 0 then Some(variants[0].id)
    else None
  }

  /** Resolving an already resolved id changes nothing. */
  lemma ResolveIdempotent(pinned: Option<string>, variants: seq<Variant>)
    ensures Resolve(Resolve(pinned, variants), variants) == Resolve(pinned, variants)
  {
  }

  function ResolvedColor(product: Product, selection: Selection): Option<string> {
    Resolve(selection.colorId, product.colors)
  }

  function ResolvedSize(product: Product, selection: Selection): Option<string> {
    Resolve(selection.sizeId, product.sizes)
  }

  /** The id the store files an addition of `product` with `selection` under. */
  function LineId(product: Product, selection: Selection): (id: string)
    ensures |id| > |product.id| && id[..|product.id|] == product.id && id[|product.id|] == Separator
  {
    ItemId(product.id, ResolvedColor(product, selection), ResolvedSize(product, selection))
  }

  /** Pinning the first listed colour and size is the same as pinning nothing. */
  lemma DefaultSelectionSameLine(product: Product)
    requires |product.colors| > 0 && |product.sizes| > 0
    ensures LineId(product, Selection(None, None))
         == LineId(product, Selection(Some(product.colors[0].id), Some(product.sizes[0].id)))
  {
  }

  // ---------------------------------------------------------------------------
  // Cart lines and the operations on a list of them
  // ---------------------------------------------------------------------------

  /** A line of the cart: the product snapshot, its id, the resolved selection
      and how many of it are in the cart. */
  datatype CartLine = CartLine(
    product: Product,
    cartItemId: string,
    selectedColorId: Option<string>,
    selectedSizeId: Option<string>,
    count: int)

  /** The label of the notification each operation raises. */
  datatype Event = ItemAdded | ItemRemoved | AllItemsRemoved

  /** `findIndex` by id: -1 when no line has the id, else the first line that has it. */
  function FindIndex(items: seq<CartLine>, id: string): (r: int)
    ensures -1 <= r < |items|
    ensures r == -1 <==> forall k | 0 <= k < |items| :: items[k].cartItemId != id
    ensures r >= 0 ==> items[r].cartItemId == id
    ensures r >= 0 ==> forall k | 0 <= k < r :: items[k].cartItemId != id
  {
    if items == [] then -1
    else if items[0].cartItemId == id then 0
    else
      var r' := FindIndex(items[1..], id);
      if r' == -1 then -1 else r' + 1
  }

  /** The lines whose id differs from `id`, in their order (`filter`). */
  function WithoutId(items: seq<CartLine>, id: string): (r: seq<CartLine>)
    ensures |r| <= |items|
    ensures forall k | 0 <= k < |r| :: r[k].cartItemId != id
    ensures (forall k | 0 <= k < |items| :: items[k].cartItemId != id) ==> r == items
  {
    if items == [] then []
    else if items[0].cartItemId == id then WithoutId(items[1..], id)
    else [items[0]] + WithoutId(items[1..], id)
  }

  /** Filtering distributes over concatenation: the lines kept from `a + b`
      are those kept from `a` followed by those kept from `b`, so the kept
      lines stay in their order. */
  lemma {:induction false} WithoutIdConcat(a: seq<CartLine>, b: seq<CartLine>, id: string)
    ensures WithoutId(a + b, id) == WithoutId(a, id) + WithoutId(b, id)
  {
    if a != [] {
      assert (a + b)[1..] == a[1..] + b;
      WithoutIdConcat(a[1..], b, id);
    } else {
      assert a + b == b;
    }
  }

  /** A line survives the filter exactly when it was in the list and its id
      differs from the removed one. */
  lemma {:induction false} WithoutIdMembers(items: seq<CartLine>, id: string, line: CartLine)
    ensures line in WithoutId(items, id) <==> line in items && line.cartItemId != id
  {
    if items != [] {
      WithoutIdMembers(items[1..], id, line);
      assert items == [items[0]] + items[1..];
    }
  }

  /** The new line an addition appends when its id is not yet in the cart. */
  function NewLine(product: Product, selection: Selection): (line: CartLine)
    ensures line.product == product && line.count == 1
    ensures line.cartItemId == LineId(product, selection)
    ensures LineWellformed(line)
  {
    ResolveIdempotent(selection.colorId, product.colors);
    ResolveIdempotent(selection.sizeId, product.sizes);
    CartLine(product, LineId(product, selection),
             ResolvedColor(product, selection), ResolvedSize(product, selection), 1)
  }

  /** The lines after `addItem(product, selection)`. */
  function Added(items: seq<CartLine>, product: Product, selection: Selection): (r: seq<CartLine>)
    ensures |r| == |items| || |r| == |items| + 1
    ensures FindIndex(r, LineId(product, selection)) != -1
  {
    var i := FindIndex(items, LineId(product, selection));
    if i != -1 then
      var r := items[i := items[i].(count := items[i].count + 1)];
      assert r[i].cartItemId == LineId(product, selection);
      r
    else
      var r := items + [NewLine(product, selection)];
      assert r[|items|].cartItemId == LineId(product, selection);
      r
  }

  /** The lines after `removeItem(id)`. */
  function Removed(items: seq<CartLine>, id: string): (r: seq<CartLine>)
    ensures |r| <= |items|
    ensures FindIndex(items, id) == -1 ==> r == items
    ensures FindIndex(items, id) != -1 && items[FindIndex(items, id)].count <= 1 ==>
      FindIndex(r, id) == -1
  {
    var i := FindIndex(items, id);
    if i == -1 then items
    else if items[i].count > 1 then items[i := items[i].(count := items[i].count - 1)]
    else WithoutId(items, id)
  }

  // ---------------------------------------------------------------------------
  // The cart invariant
  // ---------------------------------------------------------------------------

  /** No two lines share an id. */
  ghost predicate UniqueIds(items: seq<CartLine>) {
    forall i, j | 0 <= i < j < |items| :: items[i].cartItemId != items[j].cartItemId
  }

  /** A line holds at least one item, its id is derived from its product and
      selection, and its selection is already resolved. */
  ghost predicate LineWellformed(line: CartLine) {
    && line.count >= 1
    && line.cartItemId == ItemId(line.product.id, line.selectedColorId, line.selectedSizeId)
    && Resolve(line.selectedColorId, line.product.colors) == line.selectedColorId
    && Resolve(line.selectedSizeId, line.product.sizes) == line.selectedSizeId
  }

  ghost predicate Wellformed(items: seq<CartLine>) {
    UniqueIds(items) && forall k | 0 <= k < |items| :: LineWellformed(items[k])
  }

  /** Adding a product already in the cart adds one to that line; the number of
      lines, their order and every other line stay as they were. */
  lemma AddExisting(items: seq<CartLine>, product: Product, selection: Selection)
    requires FindIndex(items, LineId(product, selection)) != -1
    ensures var i := FindIndex(items, LineId(product, selection));
      var r := Added(items, product, selection);
      && |r| == |items|
      && r[i] == items[i].(count := items[i].count + 1)
      && forall k | 0 <= k < |items| && k != i :: r[k] == items[k]
  {
  }

  /** Adding a product not yet in the cart appends one line with count 1, the
      resolved selection and its id; the earlier lines stay as they were. */
  lemma AddNew(items: seq<CartLine>, product: Product, selection: Selection)
    requires FindIndex(items, LineId(product, selection)) == -1
    ensures var r := Added(items, product, selection);
      && |r| == |items| + 1
      && r[..|items|] == items
      && r[|items|].count == 1
      && r[|items|].cartItemId == LineId(product, selection)
      && r[|items|].selectedColorId == ResolvedColor(product, selection)
      && r[|items|].selectedSizeId == ResolvedSize(product, selection)
  {
  }

  /** Removing a line that holds more than one item takes one off in place. */
  lemma RemoveDecrements(items: seq<CartLine>, id: string)
    requires FindIndex(items, id) != -1 && items[FindIndex(items, id)].count > 1
    ensures var i := FindIndex(items, id);
      var r := Removed(items, id);
      && |r| == |items|
      && r[i] == items[i].(count := items[i].count - 1)
      && forall k | 0 <= k < |items| && k != i :: r[k] == items[k]
  {
  }

  /** Dropping the only line with a given id leaves the other lines in order. */
  lemma {:induction false} WithoutUniqueId(items: seq<CartLine>, i: nat)
    requires i < |items|
    requires forall k | 0 <= k < |items| && k != i :: items[k].cartItemId != items[i].cartItemId
    ensures WithoutId(items, items[i].cartItemId) == items[..i] + items[i + 1..]
  {
    var id := items[i].cartItemId;
    var tail := items[1..];
    if i == 0 {
      assert forall k | 0 <= k < |tail| :: tail[k].cartItemId != id by {
        forall k | 0 <= k < |tail| ensures tail[k].cartItemId != id {
          assert tail[k] == items[k + 1];
        }
      }
      assert items[..0] + items[1..] == tail;
    } else {
      assert tail[i - 1] == items[i];
      assert forall k | 0 <= k < |tail| && k != i - 1 :: tail[k].cartItemId != id by {
        forall k | 0 <= k < |tail| && k != i - 1 ensures tail[k].cartItemId != id {
          assert tail[k] == items[k + 1];
        }
      }
      WithoutUniqueId(tail, i - 1);
      assert WithoutId(items, id) == [items[0]] + WithoutId(tail, id) by {
        assert items[0].cartItemId != id;
      }
      DropAfterHead(items, i);
    }
  }

  /** Dropping a line after the first is keeping the first and dropping in
      the rest. */
  lemma DropAfterHead(items: seq<CartLine>, i: nat)
    requires 0 < i < |items|
    ensures items[..i] + items[i + 1..] == [items[0]] + (items[1..][..i - 1] + items[1..][i..])
  {
  }

  /** Removing the last item of a line in a well-formed cart deletes just that
      line and keeps the others in their order. */
  lemma RemoveDeletes(items: seq<CartLine>, id: string)
    requires UniqueIds(items)
    requires FindIndex(items, id) != -1 && items[FindIndex(items, id)].count <= 1
    ensures var i := FindIndex(items, id);
      Removed(items, id) == items[..i] + items[i + 1..]
  {
    var i := FindIndex(items, id);
    assert forall k | 0 <= k < |items| && k != i :: items[k].cartItemId != items[i].cartItemId by {
      forall k | 0 <= k < |items| && k != i ensures items[k].cartItemId != items[i].cartItemId {
        if k < i {
          assert items[k].cartItemId != items[i].cartItemId;
        } else {
          assert items[i].cartItemId != items[k].cartItemId;
        }
      }
    }
    WithoutUniqueId(items, i);
  }

  /** Dropping any one line keeps a cart well-formed. */
  lemma DropPreservesWellformed(items: seq<CartLine>, i: nat)
    requires Wellformed(items) && i < |items|
    ensures Wellformed(items[..i] + items[i + 1..])
  {
    var r := items[..i] + items[i + 1..];
    assert forall k | 0 <= k < |r| :: r[k] == items[if k < i then k else k + 1];
  }

  /** Removing an id that is not in the cart changes nothing. */
  lemma RemoveUnknown(items: seq<CartLine>, id: string)
    requires forall k | 0 <= k < |items| :: items[k].cartItemId != id
    ensures Removed(items, id) == items
  {
  }

  /** Changing the count of one line keeps a cart well-formed as long as the
      count stays positive. */
  lemma RecountPreservesWellformed(items: seq<CartLine>, i: nat, count: int)
    requires Wellformed(items) && i < |items| && count >= 1
    ensures Wellformed(items[i := items[i].(count := count)])
  {
    var r := items[i := items[i].(count := count)];
    assert forall k | 0 <= k < |r| :: r[k].cartItemId == items[k].cartItemId;
  }

  /** `addItem` keeps the ids distinct, every count at least one and every line
      tied to its own selection. */
  lemma AddPreservesWellformed(items: seq<CartLine>, product: Product, selection: Selection)
    requires Wellformed(items)
    ensures Wellformed(Added(items, product, selection))
  {
    var i := FindIndex(items, LineId(product, selection));
    if i != -1 {
      RecountPreservesWellformed(items, i, items[i].count + 1);
    } else {
      var line := NewLine(product, selection);
      ResolveIdempotent(selection.colorId, product.colors);
      ResolveIdempotent(selection.sizeId, product.sizes);
      assert LineWellformed(line);
    }
  }

  /** `removeItem` keeps the cart well-formed. */
  lemma RemovePreservesWellformed(items: seq<CartLine>, id: string)
    requires Wellformed(items)
    ensures Wellformed(Removed(items, id))
  {
    var i := FindIndex(items, id);
    if i != -1 {
      if items[i].count > 1 {
        RecountPreservesWellformed(items, i, items[i].count - 1);
      } else {
        assert UniqueIds(items);
        RemoveDeletes(items, id);
        DropPreservesWellformed(items, i);
      }
    }
  }

  /** Adding a line's own product with its stored selection (the "+" button of
      the cart page) adds one to that very line. */
  lemma ReAddIncrementsLine(items: seq<CartLine>, i: nat)
    requires Wellformed(items) && i < |items|
    ensures var line := items[i];
      var r := Added(items, line.product, Selection(line.selectedColorId, line.selectedSizeId));
      && |r| == |items|
      && r[i] == line.(count := line.count + 1)
      && forall k | 0 <= k < |items| && k != i :: r[k] == items[k]
  {
    var line := items[i];
    assert LineId(line.product, Selection(line.selectedColorId, line.selectedSizeId)) == line.cartItemId;
    assert FindIndex(items, line.cartItemId) == i;
  }

  // ---------------------------------------------------------------------------
  // The store
  // ---------------------------------------------------------------------------

  /** The cart store: its lines and, standing for the toasts, the labels of the
      notifications raised so far. */
  class Cart {
    var items: seq<CartLine>
    var events: seq<Event>

    constructor ()
      ensures items == [] && events == []
    {
      items := [];
      events := [];
    }

    /** `addItem(product, t, selection)`. */
    method AddItem(product: Product, selection: Selection)
      modifies this
      ensures items == Added(old(items), product, selection)
      ensures events == old(events) + [ItemAdded]
      ensures old(Wellformed(items)) ==> Wellformed(items)
    {
      ghost var before := items;
      var selectedColorId := Resolve(selection.colorId, product.colors);
      var selectedSizeId := Resolve(selection.sizeId, product.sizes);
      var cartItemId := ItemId(product.id, selectedColorId, selectedSizeId);
      var existingItemIndex := FindIndex(items, cartItemId);
      if existingItemIndex != -1 {
        var updatedItems := items;
        var line := updatedItems[existingItemIndex];
        updatedItems := updatedItems[existingItemIndex := line.(count := line.count + 1)];
        items := updatedItems;
      } else {
        items := items + [CartLine(product, cartItemId, selectedColorId, selectedSizeId, 1)];
      }
      events := events + [ItemAdded];
      if Wellformed(before) {
        AddPreservesWellformed(before, product, selection);
      }
    }

    /** `removeItem(cartItemId, t)`: an unknown id changes nothing and raises
        no notification. */
    method RemoveItem(cartItemId: string)
      modifies this
      ensures items == Removed(old(items), cartItemId)
      ensures FindIndex(old(items), cartItemId) == -1 ==> items == old(items) && events == old(events)
      ensures FindIndex(old(items), cartItemId) != -1 ==> events == old(events) + [ItemRemoved]
      ensures old(Wellformed(items)) ==> Wellformed(items)
    {
      ghost var before := items;
      var existingItemIndex := FindIndex(items, cartItemId);
      if existingItemIndex != -1 {
        var item := items[existingItemIndex];
        if item.count > 1 {
          items := items[existingItemIndex := item.(count := item.count - 1)];
        } else {
          items := WithoutId(items, cartItemId);
        }
        events := events + [ItemRemoved];
      }
      if Wellformed(before) {
        RemovePreservesWellformed(before, cartItemId);
      }
    }

    /** `removeAll(t)`. */
    method RemoveAll()
      modifies this
      ensures items == [] && Wellformed(items)
      ensures events == old(events) + [AllItemsRemoved]
    {
      items := [];
      events := events + [AllItemsRemoved];
    }
  }

  // ---------------------------------------------------------------------------
  // Persistence
  // ---------------------------------------------------------------------------

  /** The persisted record: the lines and whatever else the snapshot holds. */
  datatype PersistedState = PersistedState(items: seq<CartLine>, other: map<string, string>)

  /** The `migrate` hook: a snapshot from a schema older than version 2 loses
      its lines and keeps everything else; a current one is kept as it is. */
  function Migrate(state: PersistedState, version: int): (r: PersistedState)
    ensures r.other == state.other
    ensures version < CurrentVersion ==> r.items == []
    ensures version >= CurrentVersion ==> r == state
  {
    if version < CurrentVersion then state.(items := []) else state
  }

  /** A migrated snapshot needs no further migration, and it is well-formed
      whenever the lines it kept were. */
  lemma MigrateSettles(state: PersistedState, version: int)
    ensures Migrate(Migrate(state, version), CurrentVersion) == Migrate(state, version)
    ensures version < CurrentVersion ==> Wellformed(Migrate(state, version).items)
    ensures Wellformed(state.items) ==> Wellformed(Migrate(state, version).items)
  {
  }
}
