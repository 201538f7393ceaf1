/**
  Carts and criteria of the shapes rule authors write: a price bound, a
  country list, a total between two bounds, an unknown operator, a numeric
  string, and quantities of cart items under a dotted key, including a
  dotted operator map whose operators are met by different items.
 */
module EligibilityExamples {
  import opened JsStrings
  import opened JsValues
  import opened Eligibility
  import opened EligibilityProperties

  /** A one-field cart tested by an operator map on that field. */
  lemma PlainOperatorMap(field: string, x: Value, c: Value)
    requires '.' !in field && IsObject(c)
    ensures IsEligible([(field, x)], [(field, c)]) == Every(OperatorOutcomes(c, x))
  {
    SingleCriterion([(field, x)], field, c);
  }

  /** `{price: {gt: bound}}` holds iff the price is above the bound (100 > 50 holds, 10 > 50 fails). */
  lemma PriceAbove(price: int, bound: int)
    ensures IsEligible([("price", Num(price))], [("price", Obj([("gt", Num(bound))]))]) == Done(price > bound)
  {
    var c := Obj([("gt", Num(bound))]);
    PlainOperatorMap("price", Num(price), c);
    IntegerRelational(bound, price);
    assert OperatorOutcomes(c, Num(price)) == [Done(price > bound)];
  }

  /** `{country: {in: ['FR', 'DE']}}` holds exactly on those two countries. */
  lemma CountryIn(country: string)
    ensures IsEligible([("country", Str(country))], [("country", Obj([("in", Arr([Str("FR"), Str("DE")]))]))])
         == Done(country == "FR" || country == "DE")
  {
    var xs := [Str("FR"), Str("DE")];
    var c := Obj([("in", Arr(xs))]);
    PlainOperatorMap("country", Str(country), c);
    InIsMembership(xs, Str(country));
    assert Str(country) in xs <==> country == "FR" || country == "DE";
    assert OperatorOutcomes(c, Str(country)) == [Done(country == "FR" || country == "DE")];
  }

  /** `{total: {and: {gte: lo, lte: hi}}}` holds iff the total lies between the bounds. */
  lemma TotalBetween(total: int, lo: int, hi: int)
    ensures IsEligible([("total", Num(total))], [("total", Obj([("and", Obj([("gte", Num(lo)), ("lte", Num(hi))]))]))])
         == Done(lo <= total <= hi)
  {
    var bounds := Obj([("gte", Num(lo)), ("lte", Num(hi))]);
    var c := Obj([("and", bounds)]);
    PlainOperatorMap("total", Num(total), c);
    SubOutcomesAreEntries(bounds, Num(total));
    IntegerRelational(lo, total);
    IntegerRelational(hi, total);
    assert SubOutcomes(bounds, Num(total)) == [Done(total >= lo), Done(total <= hi)];
    EveryOfTwo(total >= lo, total <= hi);
    assert OperatorOutcomes(c, Num(total)) == [Done(lo <= total <= hi)];
  }

  /** `{price: {foo: 1}}` fails on every cart. */
  lemma UnknownOperatorFails(cart: Props)
    ensures IsEligible(cart, [("price", Obj([("foo", Num(1))]))]) == Done(false)
  {
    assert !IsOperator("foo");
  }

  /** `{price: n}` holds on a cart whose price is the string spelling n, "5" for 5. */
  lemma NumericStringEqualsNumber(n: int)
    ensures IsEligible([("price", Str(IntString(n)))], [("price", Num(n))]) == Done(true)
  {
    SingleCriterion([("price", Str(IntString(n)))], "price", Num(n));
    NumberEqualsItsSpelling(n);
  }

  /** A cart item with a quantity. */
  function Item(q: int): (v: Value)
    ensures !Nullish(v) && Property(v, "qty") == Some(Num(q))
  {
    Obj([("qty", Num(q))])
  }

  /** A relational operator of `items.qty` over two items reads the quantity of each. */
  lemma TwoItems(op: string, bound: int, q1: int, q2: int)
    requires IsRelational(op)
    ensures OperatorOverElements(op, Num(bound), [Item(q1), Item(q2)], "qty")
         == [CheckOp(op, Num(bound), Num(q1)), CheckOp(op, Num(bound), Num(q2))]
  {
  }

  /** The key `items.qty` names the field `items` and the subfield `qty`. */
  lemma ItemsKey()
    ensures '.' in "items.qty" && KeyField("items.qty") == "items" && KeySubfield("items.qty") == "qty"
  {
    SplitKey("items", "qty", "");
    assert "items" + "." + "qty" + "" == "items.qty";
  }

  /** A cart whose only field is `items`, tested by an operator map under `items.qty`. */
  lemma ItemsCriterion(elems: seq<Value>, c: Value)
    requires IsObject(c)
    ensures IsEligible([("items", Arr(elems))], [("items.qty", c)]) == Every(OperatorsOverElements(c, elems, "qty"))
  {
    var cart := [("items", Arr(elems))];
    ItemsKey();
    SingleCriterion(cart, "items.qty", c);
    assert Get(cart, "items") == Arr(elems);
    assert CheckCriterion(cart, "items.qty", c) == CheckSubobject("items.qty", c, cart);
  }

  /** `{'items.qty': {gte: n}}` on two items holds iff some item has at least n. */
  lemma SomeItemAtLeast(q1: int, q2: int, n: int)
    ensures IsEligible([("items", Arr([Item(q1), Item(q2)]))], [("items.qty", Obj([("gte", Num(n))]))])
         == Done(q1 >= n || q2 >= n)
  {
    var c := Obj([("gte", Num(n))]);
    ItemsCriterion([Item(q1), Item(q2)], c);
    IntegerRelational(n, q1);
    IntegerRelational(n, q2);
    TwoItems("gte", n, q1, q2);
    AnyOfTwo(q1 >= n, q2 >= n);
    assert OperatorsOverElements(c, [Item(q1), Item(q2)], "qty") == [Done(q1 >= n || q2 >= n)];
  }

  /**
    `{'items.qty': {gte: lo, lte: hi}}` on two items: some item has at least
    lo and some item, possibly another, has at most hi.
   */
  lemma ItemsBetween(q1: int, q2: int, lo: int, hi: int)
    ensures IsEligible([("items", Arr([Item(q1), Item(q2)]))],
                       [("items.qty", Obj([("gte", Num(lo)), ("lte", Num(hi))]))])
         == Done((q1 >= lo || q2 >= lo) && (q1 <= hi || q2 <= hi))
  {
    var c := Obj([("gte", Num(lo)), ("lte", Num(hi))]);
    ItemsCriterion([Item(q1), Item(q2)], c);
    BoundRows(q1, q2, lo, hi);
    EveryOfTwo(q1 >= lo || q2 >= lo, q1 <= hi || q2 <= hi);
  }

  /** Each bound of `{gte: lo, lte: hi}` is met by some item of two. */
  lemma BoundRows(q1: int, q2: int, lo: int, hi: int)
    ensures OperatorsOverElements(Obj([("gte", Num(lo)), ("lte", Num(hi))]), [Item(q1), Item(q2)], "qty")
         == [Done(q1 >= lo || q2 >= lo), Done(q1 <= hi || q2 <= hi)]
  {
    var c := Obj([("gte", Num(lo)), ("lte", Num(hi))]);
    var elems := [Item(q1), Item(q2)];
    IntegerRelational(lo, q1);
    IntegerRelational(lo, q2);
    IntegerRelational(hi, q1);
    IntegerRelational(hi, q2);
    TwoItems("gte", lo, q1, q2);
    TwoItems("lte", hi, q1, q2);
    assert Entries(c) == [("gte", Num(lo)), ("lte", Num(hi))];
    AnyOfTwo(q1 >= lo, q2 >= lo);
    AnyOfTwo(q1 <= hi, q2 <= hi);
  }

  lemma AnyOfTwo(a: bool, b: bool)
    ensures Any([Done(a), Done(b)]) == Done(a || b)
  {
    assert [Done(a), Done(b)][1..] == [Done(b)];
  }

  lemma EveryOfTwo(a: bool, b: bool)
    ensures Every([Done(a), Done(b)]) == Done(a && b)
  {
    assert [Done(a), Done(b)][1..] == [Done(b)];
  }

  /** Neither an item below lo nor an item above hi satisfies both `gte lo` and `lte hi`. */
  lemma NoItemBetween(a: int, b: int, lo: int, hi: int)
    requires a < lo && hi < b
    ensures !SomeElementAllOperators(Obj([("gte", Num(lo)), ("lte", Num(hi))]), [Item(a), Item(b)], "qty")
  {
    var c := Obj([("gte", Num(lo)), ("lte", Num(hi))]);
    var elems := [Item(a), Item(b)];
    IntegerRelational(lo, a);
    IntegerRelational(hi, b);
    assert Entries(c)[0] == ("gte", Num(lo)) && Entries(c)[1] == ("lte", Num(hi));
    assert SubValue(elems[0], "qty") == Num(a) && SubValue(elems[1], "qty") == Num(b);
    forall i | 0 <= i < |elems|
      ensures exists j :: 0 <= j < |Entries(c)| && CheckOp(Entries(c)[j].0, Entries(c)[j].1, SubValue(elems[i], "qty")) != Done(true)
    {
      if i == 0 {
        assert CheckOp(Entries(c)[0].0, Entries(c)[0].1, SubValue(elems[0], "qty")) == Done(false);
      } else {
        assert CheckOp(Entries(c)[1].0, Entries(c)[1].1, SubValue(elems[1], "qty")) == Done(false);
      }
    }
  }

  /**
    `{'items.qty': {gte: lo, lte: hi}}` holds on an item below lo and an
    item above hi (quantities 2 and 8 against 5 and 7), although neither
    item lies between the bounds (NoItemBetween): each operator finds its
    own item.
   */
  lemma PerOperatorNotPerElement(a: int, b: int, lo: int, hi: int)
    requires a < lo && lo <= hi && hi < b
    ensures IsEligible([("items", Arr([Item(a), Item(b)]))],
                       [("items.qty", Obj([("gte", Num(lo)), ("lte", Num(hi))]))]) == Done(true)
  {
    ItemsBetween(a, b, lo, hi);
  }

  /** A key with several dots uses its first two segments only. */
  lemma ThirdSegmentIgnored()
    ensures KeyField("a.b.c") == "a" && KeySubfield("a.b.c") == "b"
  {
    SplitKey("a", "b", ".c");
  }
}
