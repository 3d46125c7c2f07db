/** The product page's variant choice: sizes shown in a fixed clothing-size
    order, and the colour and size the shopper has picked, which the add-to-cart
    button hands to the cart store. */
module SizeOrder {
  import opened Catalog
  import opened JsText
  import opened CartStore

  /** The size ladder, smallest first. */
  const Ladder: seq<string> := ["XXS", "XS", "S", "M", "L", "XL", "XXL", "XXXL"]

  /** `xs.indexOf(x)`: -1 when `x` is absent, else its first position. */
  function IndexOf(xs: seq<string>, x: string): (i: int)
    ensures -1 <= i < |xs|
    ensures i == -1 <==> x !in xs
    ensures i >= 0 ==> xs[i] == x && x !in xs[..i]
  {
    if xs == [] then -1
    else if xs[0] == x then 0
    else
      var i' := IndexOf(xs[1..], x);
      assert xs[1..][..if i' < 0 then 0 else i'] == xs[1..if i' < 0 then 1 else i' + 1];
      if i' == -1 then -1 else i' + 1
  }

  /** The ladder position of a size label, matched after upper-casing; -1 for
      a label that is not on the ladder. */
  function Rank(value: string): (r: int)
    ensures -1 <= r < |Ladder|
    ensures r >= 0 ==> Ladder[r] == ToUpperCase(value)
    ensures r == -1 <==> ToUpperCase(value) !in Ladder
  {
    IndexOf(Ladder, ToUpperCase(value))
  }

  /** `localeCompare(..., { numeric: true })` is taken as a consistent total
      preorder on strings: the sign flips when the arguments are swapped, and
      "not after" is transitive. */
  ghost predicate IsLocaleOrder(cmp: (string, string) -> int) {
    && (forall x, y :: cmp(x, y) < 0 <==> cmp(y, x) > 0)
    && (forall x, y, z :: cmp(x, y) <= 0 && cmp(y, z) <= 0 ==> cmp(x, z) <= 0)
  }

  /** The comparator handed to `sort`: ladder sizes by ladder position, ladder
      sizes before all others, others by the locale-aware compare. */
  function CompareSizes(a: Variant, b: Variant, cmp: (string, string) -> int): (r: int)
    ensures Rank(a.value) >= 0 && Rank(b.value) >= 0 ==> (r < 0 <==> Rank(a.value) < Rank(b.value))
    ensures (Rank(a.value) >= 0) != (Rank(b.value) >= 0) ==> (r < 0 <==> Rank(a.value) >= 0) && r != 0
    ensures Rank(a.value) == -1 && Rank(b.value) == -1 ==> r == cmp(a.value, b.value)
  {
    var aIndex := Rank(a.value);
    var bIndex := Rank(b.value);
    if aIndex != -1 && bIndex != -1 then aIndex - bIndex
    else if aIndex != -1 then -1
    else if bIndex != -1 then 1
    else cmp(a.value, b.value)
  }

  /** A ladder size sorts before any size not on the ladder. */
  lemma LadderBeforeOthers(a: Variant, b: Variant, cmp: (string, string) -> int)
    requires Rank(a.value) >= 0 && Rank(b.value) == -1
    ensures CompareSizes(a, b, cmp) < 0 && CompareSizes(b, a, cmp) > 0
  {
  }

  /** Two ladder sizes compare as their ladder positions do. */
  lemma LadderSizesByPosition(a: Variant, b: Variant, cmp: (string, string) -> int)
    requires Rank(a.value) >= 0 && Rank(b.value) >= 0
    ensures CompareSizes(a, b, cmp) < 0 <==> Rank(a.value) < Rank(b.value)
    ensures CompareSizes(a, b, cmp) == 0 <==> Ladder[Rank(a.value)] == Ladder[Rank(b.value)]
  {
  }

  /** Two sizes off the ladder compare as the locale-aware compare says. */
  lemma OtherSizesByLocale(a: Variant, b: Variant, cmp: (string, string) -> int)
    requires Rank(a.value) == -1 && Rank(b.value) == -1
    ensures CompareSizes(a, b, cmp) == cmp(a.value, b.value)
  {
  }

  /** Ladder matching ignores ASCII case: labels that agree up to case get the
      same rank, so "m" and "M" are both the fourth rung. */
  lemma RankIgnoresCase(v: string, w: string)
    requires |v| == |w|
    requires forall k | 0 <= k < |v| :: UpperChar(v[k]) == UpperChar(w[k])
    ensures Rank(v) == Rank(w)
    ensures Rank("m") == Rank("M") == 3
  {
    ToUpperCaseIgnoresCase(v, w);
    assert ToUpperCase("m") == "M";
    assert ToUpperCase("M") == "M";
  }

  /** The comparator is sign-antisymmetric when the locale compare is. */
  lemma CompareAntisymmetric(a: Variant, b: Variant, cmp: (string, string) -> int)
    requires IsLocaleOrder(cmp)
    ensures CompareSizes(a, b, cmp) < 0 <==> CompareSizes(b, a, cmp) > 0
    ensures CompareSizes(a, a, cmp) == 0
  {
  }

  /** "Not after" is transitive for the comparator when it is for the locale compare. */
  lemma CompareTransitive(a: Variant, b: Variant, c: Variant, cmp: (string, string) -> int)
    requires IsLocaleOrder(cmp)
    requires CompareSizes(a, b, cmp) <= 0 && CompareSizes(b, c, cmp) <= 0
    ensures CompareSizes(a, c, cmp) <= 0
  {
  }

  /** What `sort` needs of a comparator: the sign flips when the arguments are
      swapped, and "not after" is transitive. */
  ghost predicate IsConsistentComparator<T(!new)>(compare: (T, T) -> int) {
    && (forall a, b :: compare(a, b) < 0 <==> compare(b, a) > 0)
    && (forall a, b, c :: compare(a, b) <= 0 && compare(b, c) <= 0 ==> compare(a, c) <= 0)
  }

  ghost predicate SortedBy<T>(s: seq<T>, compare: (T, T) -> int) {
    forall i, j | 0 <= i < j < |s| :: compare(s[i], s[j]) <= 0
  }

  /** Inserts `x` before the first element not strictly smaller, which keeps
      equal elements in their original order. */
  function Insert<T>(x: T, ys: seq<T>, compare: (T, T) -> int): (r: seq<T>)
    ensures multiset(r) == multiset([x] + ys)
  {
    if ys == [] then [x]
    else if compare(ys[0], x) < 0 then
      assert ys == [ys[0]] + ys[1..];
      [ys[0]] + Insert(x, ys[1..], compare)
    else [x] + ys
  }

  /** `[...xs].sort(compare)` as a stable insertion sort on a copy: the result
      is a permutation of `xs`, which itself is a value and is not reordered. */
  function SortBy<T>(xs: seq<T>, compare: (T, T) -> int): (r: seq<T>)
    ensures multiset(r) == multiset(xs)
    ensures |r| == |xs|
  {
    if xs == [] then []
    else
      assert xs == [xs[0]] + xs[1..];
      Insert(xs[0], SortBy(xs[1..], compare), compare)
  }

  /** An element not after any element of a sorted list can go in front of it. */
  lemma PrependSorted<T>(y: T, rest: seq<T>, compare: (T, T) -> int)
    requires SortedBy(rest, compare)
    requires forall j | 0 <= j < |rest| :: compare(y, rest[j]) <= 0
    ensures SortedBy([y] + rest, compare)
  {
    var r := [y] + rest;
    forall i, j | 0 <= i < j < |r| ensures compare(r[i], r[j]) <= 0 {
      assert r[j] == rest[j - 1];
      if i > 0 {
        assert r[i] == rest[i - 1];
      }
    }
  }

  /** A lower bound of `x` and of every element of `ys` bounds every element of
      `Insert(x, ys)`. */
  lemma InsertBounded<T>(y: T, x: T, ys: seq<T>, compare: (T, T) -> int)
    requires compare(y, x) <= 0
    requires forall k | 0 <= k < |ys| :: compare(y, ys[k]) <= 0
    ensures forall j | 0 <= j < |Insert(x, ys, compare)| :: compare(y, Insert(x, ys, compare)[j]) <= 0
  {
    var rest := Insert(x, ys, compare);
    forall j | 0 <= j < |rest| ensures compare(y, rest[j]) <= 0 {
      assert rest[j] in multiset(rest);
      if rest[j] != x {
        assert rest[j] in multiset(ys);
        var m :| 0 <= m < |ys| && ys[m] == rest[j];
      }
    }
  }

  lemma {:induction false} InsertSorted<T(!new)>(x: T, ys: seq<T>, compare: (T, T) -> int)
    requires IsConsistentComparator(compare) && SortedBy(ys, compare)
    ensures SortedBy(Insert(x, ys, compare), compare)
  {
    if ys == [] {
    } else if compare(ys[0], x) < 0 {
      var tail := ys[1..];
      assert forall k | 0 <= k < |tail| :: tail[k] == ys[k + 1];
      InsertSorted(x, tail, compare);
      InsertBounded(ys[0], x, tail, compare);
      var rest := Insert(x, tail, compare);
      assert forall j | 0 <= j < |rest| :: compare(ys[0], rest[j]) <= 0;
      PrependSorted(ys[0], rest, compare);
    } else {
      assert compare(x, ys[0]) <= 0;
      forall k | 0 <= k < |ys| ensures compare(x, ys[k]) <= 0 {
        if k > 0 {
          assert compare(ys[0], ys[k]) <= 0;
        }
      }
      PrependSorted(x, ys, compare);
    }
  }

  /** The sorted copy is in comparator order. */
  lemma {:induction false} SortBySorted<T(!new)>(xs: seq<T>, compare: (T, T) -> int)
    requires IsConsistentComparator(compare)
    ensures SortedBy(SortBy(xs, compare), compare)
  {
    if xs != [] {
      SortBySorted(xs[1..], compare);
      InsertSorted(xs[0], SortBy(xs[1..], compare), compare);
    }
  }

  /** The comparator the product page hands to `sort`, with the locale compare
      filled in. */
  function SizeComparator(cmp: (string, string) -> int): (Variant, Variant) -> int {
    (a: Variant, b: Variant) => CompareSizes(a, b, cmp)
  }

  /** The product page's `sortedSizes`: a permutation of the product's sizes. */
  function SortSizes(sizes: seq<Variant>, cmp: (string, string) -> int): (r: seq<Variant>)
    ensures multiset(r) == multiset(sizes) && |r| == |sizes|
  {
    SortBy(sizes, SizeComparator(cmp))
  }

  /** The size comparator is one `sort` can work with. */
  lemma SizeComparatorConsistent(cmp: (string, string) -> int)
    requires IsLocaleOrder(cmp)
    ensures IsConsistentComparator(SizeComparator(cmp))
  {
    var compare := SizeComparator(cmp);
    forall a, b ensures compare(a, b) < 0 <==> compare(b, a) > 0 {
      CompareAntisymmetric(a, b, cmp);
    }
    forall a, b, c | compare(a, b) <= 0 && compare(b, c) <= 0 ensures compare(a, c) <= 0 {
      CompareTransitive(a, b, c, cmp);
    }
  }

  /** Each rung of the ladder has its own position as rank. */
  lemma RankOfRung(k: nat)
    requires k < |Ladder|
    ensures Rank(Ladder[k]) == k
  {
    UpperCaseFixed(Ladder[k]);
    if k == 0 {} else if k == 1 {} else if k == 2 {} else if k == 3 {}
    else if k == 4 {} else if k == 5 {} else if k == 6 {} else {}
  }

  /** The colour selected at first: the first colour's id, or "". */
  function DefaultColorId(product: Product): (id: string)
    ensures |product.colors| > 0 ==> id == product.colors[0].id
    ensures |product.colors| == 0 ==> id == ""
  {
    if |product.colors| > 0 then product.colors[0].id else ""
  }

  /** The size selected at first: the first sorted size's id, or "". */
  function DefaultSizeId(sortedSizes: seq<Variant>): (id: string)
    ensures |sortedSizes| > 0 ==> id == sortedSizes[0].id
    ensures |sortedSizes| == 0 ==> id == ""
  {
    if |sortedSizes| > 0 then sortedSizes[0].id else ""
  }

  /** On the page, every ladder size is listed before every other size, and
      the ladder sizes run from the smallest rung to the largest. */
  lemma SortedSizesLayout(sizes: seq<Variant>, cmp: (string, string) -> int)
    requires IsLocaleOrder(cmp)
    ensures var s := SortSizes(sizes, cmp);
      forall i, j | 0 <= i < j < |s| && Rank(s[j].value) >= 0 ::
        Rank(s[i].value) >= 0 && Rank(s[i].value) <= Rank(s[j].value)
  {
    SizeComparatorConsistent(cmp);
    SortBySorted(sizes, SizeComparator(cmp));
    var s := SortSizes(sizes, cmp);
    forall i, j | 0 <= i < j < |s| && Rank(s[j].value) >= 0
      ensures Rank(s[i].value) >= 0 && Rank(s[i].value) <= Rank(s[j].value)
    {
      assert SizeComparator(cmp)(s[i], s[j]) <= 0;
    }
  }

  /** The default size is a size of the product that no other size of it
      sorts before. */
  lemma DefaultSizeIsSmallest(sizes: seq<Variant>, cmp: (string, string) -> int)
    requires IsLocaleOrder(cmp) && |sizes| > 0
    ensures var s := SortSizes(sizes, cmp);
      && s[0] in sizes
      && DefaultSizeId(s) == s[0].id
      && forall w | w in sizes :: CompareSizes(s[0], w, cmp) <= 0
  {
    var s := SortSizes(sizes, cmp);
    SizeComparatorConsistent(cmp);
    SortBySorted(sizes, SizeComparator(cmp));
    assert s[0] in multiset(s);
    forall w | w in sizes ensures CompareSizes(s[0], w, cmp) <= 0 {
      assert w in multiset(sizes);
      assert w in multiset(s);
      var j :| 0 <= j < |s| && s[j] == w;
      if j == 0 {
        CompareAntisymmetric(w, w, cmp);
      } else {
        assert SizeComparator(cmp)(s[0], s[j]) <= 0;
      }
    }
  }

  /** The product page's selection state. */
  class VariantPicker {
    var product: Product
    var sortedSizes: seq<Variant>
    var selectedColorId: string
    var selectedSizeId: string
    const localeCompare: (string, string) -> int

    /** The selection the add-to-cart button hands over. */
    function CurrentSelection(): (selection: Selection)
      reads this
      ensures selection.colorId == Some(selectedColorId)
      ensures selection.sizeId == Some(selectedSizeId)
    {
      Selection(Some(selectedColorId), Some(selectedSizeId))
    }

    /** First render: sort a copy of the sizes and select the defaults. */
    constructor (product: Product, localeCompare: (string, string) -> int)
      ensures this.product == product && this.localeCompare == localeCompare
      ensures sortedSizes == SortSizes(product.sizes, localeCompare)
      ensures selectedColorId == DefaultColorId(product)
      ensures selectedSizeId == DefaultSizeId(sortedSizes)
    {
      this.product := product;
      this.localeCompare := localeCompare;
      var sorted := SortSizes(product.sizes, localeCompare);
      sortedSizes := sorted;
      selectedColorId := DefaultColorId(product);
      selectedSizeId := DefaultSizeId(sorted);
    }

    /** A new product on the same page: the sizes are sorted again and the
        reset effect selects the defaults. */
    method ShowProduct(product: Product)
      modifies this
      ensures this.product == product
      ensures sortedSizes == SortSizes(product.sizes, localeCompare)
      ensures selectedColorId == DefaultColorId(product)
      ensures selectedSizeId == DefaultSizeId(sortedSizes)
    {
      this.product := product;
      var sorted := SortSizes(product.sizes, localeCompare);
      sortedSizes := sorted;
      selectedColorId := DefaultColorId(product);
      selectedSizeId := DefaultSizeId(sorted);
    }

    /** A click on a size button replaces the selected size. */
    method SelectSize(id: string)
      modifies this`selectedSizeId
      ensures selectedSizeId == id
    {
      selectedSizeId := id;
    }

    /** A click on a colour swatch replaces the selected colour. */
    method SelectColor(id: string)
      modifies this`selectedColorId
      ensures selectedColorId == id
    {
      selectedColorId := id;
    }

    /** The add-to-cart button: adds the product with exactly the current
        selection. */
    method AddToCart(cart: Cart)
      modifies cart
      ensures cart.items == Added(old(cart.items), product, CurrentSelection())
      ensures cart.events == old(cart.events) + [ItemAdded]
      ensures old(Wellformed(cart.items)) ==> Wellformed(cart.items)
    {
      cart.AddItem(product, Selection(Some(selectedColorId), Some(selectedSizeId)));
    }
  }

  /** With the default colour selected, the page resolves the same colour as
      an addition with no selection at all (an empty id falls back as well). */
  lemma DefaultColorMatchesQuickAdd(product: Product, sizeId: Option<string>)
    ensures ResolvedColor(product, Selection(Some(DefaultColorId(product)), sizeId))
         == ResolvedColor(product, Selection(None, None))
  {
  }

  /** Two elements out of order are swapped. */
  lemma SortPair<T>(x: T, y: T, compare: (T, T) -> int)
    requires compare(y, x) < 0
    ensures SortBy([x, y], compare) == [y, x]
  {
    assert [x, y][1..] == [y];
  }

  /** A larger rung listed before a smaller one is shown after it, whatever
      the locale compare. */
  lemma SortTwoRungs(larger: Variant, smaller: Variant, cmp: (string, string) -> int)
    requires 0 <= Rank(smaller.value) < Rank(larger.value)
    ensures SortSizes([larger, smaller], cmp) == [smaller, larger]
  {
    SortPair(larger, smaller, SizeComparator(cmp));
  }

  /** A product listed with sizes L then S and no colours. */
  const SizeL := Variant("l", "L", "L")
  const SizeS := Variant("s", "S", "S")
  const LargeThenSmall := Product("p1", [], [SizeL, SizeS], map[])

  /** The page shows S before L. */
  lemma LargeThenSmallSorted(cmp: (string, string) -> int)
    ensures SortSizes(LargeThenSmall.sizes, cmp) == [SizeS, SizeL]
  {
    RankOfRung(2);
    RankOfRung(4);
    SortTwoRungs(SizeL, SizeS, cmp);
  }

  /** The lines the two ways of adding it are filed under. */
  lemma LargeThenSmallLines()
    ensures LineId(LargeThenSmall, Selection(Some(""), Some("s"))) == "p1:none:s"
    ensures LineId(LargeThenSmall, Selection(None, None)) == "p1:none:l"
  {
  }

  /** The page's default size is the first size in ladder order, whereas an
      addition with no selection (the product card's quick add) takes the first
      size in catalog order: for a product listed with sizes L then S, adding
      from the page with its defaults untouched and adding from the card land on
      different cart lines. */
  lemma DefaultSizeDiffersFromQuickAdd(cmp: (string, string) -> int)
    ensures DefaultColorId(LargeThenSmall) == ""
    ensures DefaultSizeId(SortSizes(LargeThenSmall.sizes, cmp)) == "s"
    ensures LineId(LargeThenSmall, Selection(Some(""), Some("s"))) == "p1:none:s"
    ensures LineId(LargeThenSmall, Selection(None, None)) == "p1:none:l"
  {
    LargeThenSmallLines();
    LargeThenSmallSorted(cmp);
  }
}
