/**
  What the evaluator promises: the criteria combine by conjunction, the
  combinators mean "all" and "any", unknown operators fail, the relational
  operators are complementary, `in` is strict membership, and dotted keys
  quantify over the elements of the field.
 */
module EligibilityProperties {
  import opened JsStrings
  import opened JsValues
  import opened Eligibility

  /** Sequential conjunction: the second outcome only matters when the first is true. */
  function AndThen(a: Outcome, b: Outcome): (r: Outcome)
    ensures r == Done(true) <==> a == Done(true) && b == Done(true)
    ensures a.Done? && b.Done? ==> r == Done(a.holds && b.holds)
  {
    if a == Done(true) then b else a
  }

  // ---------------------------------------------------------------- every / some

  lemma {:induction false} EveryAppend(a: seq<Outcome>, b: seq<Outcome>)
    ensures Every(a + b) == AndThen(Every(a), Every(b))
  {
    if a == [] {
      assert a + b == b;
    } else {
      assert (a + b)[0] == a[0] && (a + b)[1..] == a[1..] + b;
      EveryAppend(a[1..], b);
    }
  }

  /** Without a TypeError among the outcomes, `every` is plain conjunction. */
  lemma EveryOfDone(os: seq<Outcome>)
    requires forall i :: 0 <= i < |os| ==> os[i].Done?
    ensures Every(os) == Done(forall i :: 0 <= i < |os| ==> os[i].holds)
  {
    EveryDecidedBy(os);
    if Every(os) != Done(true) {
      var k :| 0 <= k < |os| && os[k] == Every(os) && forall j :: 0 <= j < k ==> os[j] == Done(true);
    }
  }

  /** Without a TypeError among the outcomes, `some` is plain disjunction. */
  lemma AnyOfDone(os: seq<Outcome>)
    requires forall i :: 0 <= i < |os| ==> os[i].Done?
    ensures Any(os) == Done(exists i :: 0 <= i < |os| && os[i].holds)
  {
    AnyDecidedBy(os);
    if Any(os) != Done(false) {
      var k :| 0 <= k < |os| && os[k] == Any(os) && forall j :: 0 <= j < k ==> os[j] == Done(false);
    }
  }

  /** `some` is true exactly when some outcome is true and every earlier one is false. */
  lemma AnyTrue(os: seq<Outcome>)
    ensures Any(os) == Done(true) <==>
      exists i :: 0 <= i < |os| && os[i] == Done(true) && forall j :: 0 <= j < i ==> os[j] == Done(false)
  {
    if i :| 0 <= i < |os| && os[i] == Done(true) && forall j :: 0 <= j < i ==> os[j] == Done(false) {
      assert os[i] != Done(false);
      AnyDecidedBy(os);
      var k :| 0 <= k < |os| && os[k] == Any(os) && forall j :: 0 <= j < k ==> os[j] == Done(false);
      if k < i {
        assert os[k] == Done(false);
      }
    }
  }

  // ---------------------------------------------------------------- the criteria

  /**
    Appending criteria entries conjoins their outcomes in order; with
    disjoint keys and no integer-like key in c2, c1 + c2 lists the entries
    of the merged criteria object.
   */
  lemma IsEligibleAppend(cart: Props, c1: Props, c2: Props)
    ensures IsEligible(cart, c1 + c2) == AndThen(IsEligible(cart, c1), IsEligible(cart, c2))
    ensures IsEligible(cart, c1).Done? && IsEligible(cart, c2).Done? ==>
      IsEligible(cart, c1 + c2) == Done(IsEligible(cart, c1).holds && IsEligible(cart, c2).holds)
  {
    CriteriaOutcomesAppend(cart, c1, c2);
    EveryAppend(CriteriaOutcomes(cart, c1), CriteriaOutcomes(cart, c2));
  }

  lemma {:induction false} CriteriaOutcomesAppend(cart: Props, c1: Props, c2: Props)
    ensures CriteriaOutcomes(cart, c1 + c2) == CriteriaOutcomes(cart, c1) + CriteriaOutcomes(cart, c2)
  {
    if c1 == [] {
      assert c1 + c2 == c2;
    } else {
      assert (c1 + c2)[1..] == c1[1..] + c2;
      CriteriaOutcomesAppend(cart, c1[1..], c2);
    }
  }

  /** A single criteria entry decides the whole evaluation. */
  lemma SingleCriterion(cart: Props, key: string, criterion: Value)
    ensures IsEligible(cart, [(key, criterion)]) == CheckCriterion(cart, key, criterion)
  {
    assert CriteriaOutcomes(cart, [(key, criterion)]) == [CheckCriterion(cart, key, criterion)];
  }

  /** A plain key with a literal criterion is `cart[key] == literal`. */
  lemma PlainLiteral(cart: Props, key: string, lit: Value)
    requires '.' !in key && !IsObject(lit)
    ensures IsEligible(cart, [(key, lit)]) == Done(LooseEq(Get(cart, key), lit))
  {
    SingleCriterion(cart, key, lit);
  }

  /** A dotted key is handed to checkConditionSubobject, whatever its criterion. */
  lemma DottedEntry(cart: Props, key: string, c: Value)
    requires '.' in key
    ensures IsEligible(cart, [(key, c)]) == CheckSubobject(key, c, cart)
  {
    SingleCriterion(cart, key, c);
  }

  /** When neither part throws, the order of the criteria entries does not matter. */
  lemma IsEligibleSwap(cart: Props, c1: Props, c2: Props)
    requires IsEligible(cart, c1).Done? && IsEligible(cart, c2).Done?
    ensures IsEligible(cart, c1 + c2) == IsEligible(cart, c2 + c1)
  {
    IsEligibleAppend(cart, c1, c2);
    IsEligibleAppend(cart, c2, c1);
  }

  /**
    When an entry throws, order matters: a false entry listed first hides a
    later TypeError, and listed second it does not.
   */
  lemma ThrowingEntryOrder()
    ensures var c1, c2 := [("a", Num(1))], [("b", Obj([("in", Num(1))]))];
      IsEligible([], c1 + c2) == Done(false) && IsEligible([], c2 + c1) == TypeError
  {
    var c1, c2 := [("a", Num(1))], [("b", Obj([("in", Num(1))]))];
    assert CheckCriterion([], "a", Num(1)) == Done(false);
    assert Entries(Obj([("in", Num(1))])) == [("in", Num(1))];
    assert OperatorOutcomes(Obj([("in", Num(1))]), Undef) == [TypeError];
    assert CheckCriterion([], "b", Obj([("in", Num(1))])) == TypeError;
    assert CriteriaOutcomes([], c1 + c2) == [Done(false), TypeError];
    assert CriteriaOutcomes([], c2 + c1) == [TypeError, Done(false)];
  }

  // ---------------------------------------------------------------- operators

  /** The outcomes of a combinator are those of CheckOp on each entry of its argument. */
  lemma SubOutcomesAreEntries(arg: Value, x: Value)
    requires !Nullish(arg)
    ensures |SubOutcomes(arg, x)| == |Entries(arg)|
    ensures forall i :: 0 <= i < |Entries(arg)| ==>
      SubOutcomes(arg, x)[i] == CheckOp(Entries(arg)[i].0, Entries(arg)[i].1, x)
  {
    if arg.Str? {
      forall i | 0 <= i < |arg.s|
        ensures SubOutcomes(arg, x)[i] == CheckOp(Entries(arg)[i].0, Entries(arg)[i].1, x)
      {
        IndexKeyIsNoOperator(i);
      }
    }
  }

  /** The index keys "0", "1", ... name no operator. */
  lemma IndexKeyIsNoOperator(i: nat)
    ensures !IsOperator(IndexKey(i))
  {
    var k := IndexKey(i);
    assert IsDigit(k[0]);
  }

  /** `and` holds iff its argument has entries (is not null or undefined) and every entry holds. */
  lemma AndIsEvery(arg: Value, x: Value)
    ensures CheckOp("and", arg, x) == Done(true) <==>
      !Nullish(arg) && forall i :: 0 <= i < |Entries(arg)| ==> CheckOp(Entries(arg)[i].0, Entries(arg)[i].1, x) == Done(true)
  {
    if !Nullish(arg) {
      SubOutcomesAreEntries(arg, x);
    }
  }

  /** `or` holds iff some entry holds and every entry before it is false (none threw). */
  lemma OrIsSome(arg: Value, x: Value)
    ensures CheckOp("or", arg, x) == Done(true) <==>
      !Nullish(arg) &&
      exists i :: 0 <= i < |Entries(arg)| &&
                  CheckOp(Entries(arg)[i].0, Entries(arg)[i].1, x) == Done(true) &&
                  forall j :: 0 <= j < i ==> CheckOp(Entries(arg)[j].0, Entries(arg)[j].1, x) == Done(false)
  {
    if !Nullish(arg) {
      SubOutcomesAreEntries(arg, x);
      AnyTrue(SubOutcomes(arg, x));
    }
  }

  /** An empty `and` map holds and an empty `or` map fails, whatever the cart value. */
  lemma EmptyCombinators(x: Value)
    ensures CheckOp("and", Obj([]), x) == Done(true)
    ensures CheckOp("or", Obj([]), x) == Done(false)
  {
    assert SubOutcomes(Obj([]), x) == [];
  }

  /**
    A combinator over an array, a string, a number or a boolean sees entries
    named "0", "1", ..., which name no operator: `and` holds iff there are no
    entries, `or` never holds.
   */
  lemma CombinatorOverNonObject(arg: Value, x: Value)
    requires !Nullish(arg) && !arg.Obj?
    ensures CheckOp("and", arg, x) == Done(|Entries(arg)| == 0)
    ensures CheckOp("or", arg, x) == Done(false)
  {
    IndexEntriesFail(arg, x);
    EveryOfDone(SubOutcomes(arg, x));
    AnyOfDone(SubOutcomes(arg, x));
  }

  /** Each entry of an array, string, number or boolean, read as an operator, fails. */
  lemma IndexEntriesFail(arg: Value, x: Value)
    requires !Nullish(arg) && !arg.Obj?
    ensures |SubOutcomes(arg, x)| == |Entries(arg)|
    ensures forall i :: 0 <= i < |SubOutcomes(arg, x)| ==> SubOutcomes(arg, x)[i] == Done(false)
  {
    SubOutcomesAreEntries(arg, x);
    EntriesOfNonObject(arg);
    forall i | 0 <= i < |Entries(arg)|
      ensures SubOutcomes(arg, x)[i] == Done(false)
    {
      assert Entries(arg)[i].0 == IndexKey(i);
      IndexKeyIsNoOperator(i);
    }
  }

  /**
    On a cart without the field, a dotted key fails, and so does a literal
    other than null (undefined equals only null and undefined), and so does
    a non-empty operator map whose operators are all relational or unknown.
   */
  lemma AbsentFieldFails(cart: Props, key: string, criterion: Value)
    requires !HasKey(cart, KeyField(key))
    requires '.' in key || (!IsObject(criterion) && !Nullish(criterion)) || MapOfPlainTests(criterion)
    ensures CheckCriterion(cart, key, criterion) == Done(false)
  {
    if '.' !in key && MapOfPlainTests(criterion) {
      var os := OperatorOutcomes(criterion, Get(cart, key));
      assert Get(cart, key) == Undef;
      UndefinedFailsPlainTest(criterion.props[0].0, criterion.props[0].1);
      assert os[0] == Done(false);
    }
  }

  /** A non-empty operator map none of whose operators is `in`, `and` or `or`. */
  predicate MapOfPlainTests(criterion: Value) {
    criterion.Obj? && criterion.props != [] &&
    forall i :: 0 <= i < |criterion.props| ==> !IsCombinator(criterion.props[i].0) && criterion.props[i].0 != "in"
  }

  /** A relational or unknown operator fails on undefined: undefined compares as NaN. */
  lemma UndefinedFailsPlainTest(op: string, arg: Value)
    requires !IsCombinator(op) && op != "in"
    ensures CheckOp(op, arg, Undef) == Done(false)
  {
  }

  /** An empty operator map holds on a cart without the field: `every` of nothing is true. */
  lemma EmptyMapOnAbsentField(cart: Props, key: string)
    requires '.' !in key && !HasKey(cart, key)
    ensures IsEligible(cart, [(key, Obj([]))]) == Done(true)
  {
    SingleCriterion(cart, key, Obj([]));
  }

  /** `in` with a string argument holds on a missing field when the string contains "undefined". */
  lemma InStringOnAbsentField(cart: Props, key: string, s: string)
    requires '.' !in key && !HasKey(cart, key)
    requires IsSubstring("undefined", s)
    ensures IsEligible(cart, [(key, Obj([("in", Str(s))]))]) == Done(true)
  {
    var c := Obj([("in", Str(s))]);
    SingleCriterion(cart, key, c);
    assert Get(cart, key) == Undef;
    assert OperatorOutcomes(c, Undef) == [Done(true)];
  }

  /** A plain-key operator map behaves exactly like an `and` over the same map. */
  lemma OperatorMapIsAnd(cart: Props, key: string, criterion: Value)
    requires '.' !in key && IsObject(criterion)
    ensures CheckCriterion(cart, key, criterion) == CheckOp("and", criterion, Get(cart, key))
  {
    var x := Get(cart, key);
    SubOutcomesAreEntries(criterion, x);
    assert OperatorOutcomes(criterion, x) == SubOutcomes(criterion, x);
  }

  /** On comparable operands `gt` is the negation of `lte` and `lt` that of `gte`. */
  lemma RelationalComplements(arg: Value, x: Value)
    ensures LessThan(arg, x).Some? ==> (CheckOp("gt", arg, x) == Done(true) <==> CheckOp("lte", arg, x) == Done(false))
    ensures LessThan(x, arg).Some? ==> (CheckOp("lt", arg, x) == Done(true) <==> CheckOp("gte", arg, x) == Done(false))
  {
    var l, m := LessThan(arg, x), LessThan(x, arg);
    assert CheckLeaf("gt", arg, x) == Done(l == Some(true));
    assert CheckLeaf("lte", arg, x) == Done(l == Some(false));
    assert CheckLeaf("lt", arg, x) == Done(m == Some(true));
    assert CheckLeaf("gte", arg, x) == Done(m == Some(false));
  }

  /** When a comparison meets NaN (undefined, or a string that is not a number), all four operators fail. */
  lemma RelationalNaN(arg: Value, x: Value)
    ensures LessThan(arg, x).None? ==> CheckOp("gt", arg, x) == Done(false) && CheckOp("lte", arg, x) == Done(false)
    ensures LessThan(x, arg).None? ==> CheckOp("lt", arg, x) == Done(false) && CheckOp("gte", arg, x) == Done(false)
  {
    var l, m := LessThan(arg, x), LessThan(x, arg);
    assert CheckLeaf("gt", arg, x) == Done(l == Some(true));
    assert CheckLeaf("lte", arg, x) == Done(l == Some(false));
    assert CheckLeaf("lt", arg, x) == Done(m == Some(true));
    assert CheckLeaf("gte", arg, x) == Done(m == Some(false));
  }

  /** On two integers the operators are the integer comparisons, and `gte` is `gt` or equality. */
  lemma IntegerRelational(a: int, n: int)
    ensures CheckOp("gt", Num(a), Num(n)) == Done(n > a)
    ensures CheckOp("lt", Num(a), Num(n)) == Done(n < a)
    ensures CheckOp("gte", Num(a), Num(n)) == Done(n >= a)
    ensures CheckOp("lte", Num(a), Num(n)) == Done(n <= a)
    ensures CheckOp("gte", Num(a), Num(n)).holds <==> CheckOp("gt", Num(a), Num(n)).holds || CheckBasic(Num(a), Num(n))
  {
  }

  /**
    On two strings the operators follow the code-unit order, a strict total
    order: `gte` is `gt` or equality, and `gt` and `lt` never hold together.
   */
  lemma StringRelational(a: string, s: string)
    ensures CheckOp("gt", Str(a), Str(s)) == Done(StrLess(a, s))
    ensures CheckOp("gte", Str(a), Str(s)).holds <==> CheckOp("gt", Str(a), Str(s)).holds || s == a
    ensures CheckOp("lte", Str(a), Str(s)).holds <==> CheckOp("lt", Str(a), Str(s)).holds || s == a
    ensures !(CheckOp("gt", Str(a), Str(s)).holds && CheckOp("lt", Str(a), Str(s)).holds)
  {
    if s == a {
      StrLessIrreflexive(s);
    } else {
      StrLessTotal(s, a);
    }
    if StrLess(a, s) && StrLess(s, a) {
      StrLessTransitive(a, s, a);
      StrLessIrreflexive(a);
    }
  }

  /** `in` over an array is strict membership of a primitive cart value; objects are never members. */
  lemma InIsMembership(xs: seq<Value>, x: Value)
    ensures !IsObject(x) ==> CheckOp("in", Arr(xs), x) == Done(x in xs)
    ensures IsObject(x) ==> CheckOp("in", Arr(xs), x) == Done(false)
  {
    if !IsObject(x) && x in xs {
      var i :| 0 <= i < |xs| && xs[i] == x;
      assert SameValueZero(xs[i], x);
    }
  }

  /** `in` does not coerce: "5" is not in [5], although "5" == 5. */
  lemma InIsStrict()
    ensures CheckOp("in", Arr([Num(5)]), Str("5")) == Done(false)
    ensures CheckBasic(Num(5), Str("5"))
  {
    InIsMembership([Num(5)], Str("5"));
    assert StringToInt("5") == Some(5) by {
      assert AllDigits("5");
      assert "5"[..0] == [];
    }
  }

  // ---------------------------------------------------------------- literal criteria

  /** Loose equality does not depend on the order of its operands. */
  lemma LooseEqSymmetric(x: Value, y: Value)
    requires !(IsObject(x) && IsObject(y))
    ensures LooseEq(x, y) == LooseEq(y, x)
  {
  }

  /** A boolean compares as the number 0 or 1. */
  lemma BooleanCoercion(b: bool, y: Value)
    ensures LooseEq(Bool(b), y) == LooseEq(Num(if b then 1 else 0), y)
  {
  }

  /** A cart string that spells a number equals that number as a literal criterion, and conversely. */
  lemma NumberEqualsItsSpelling(n: int)
    ensures CheckBasic(Num(n), Str(IntString(n)))
    ensures CheckBasic(Str(IntString(n)), Num(n))
  {
    StringToIntOfIntString(n);
  }

  // ---------------------------------------------------------------- dotted keys

  lemma {:induction false} BeforeDotOfSegment(f: string, t: string)
    requires '.' !in f && (t == [] || t[0] == '.')
    ensures BeforeDot(f + t) == f
  {
    if f == [] {
      assert f + t == t;
    } else {
      assert (f + t)[0] == f[0] && (f + t)[1..] == f[1..] + t;
      BeforeDotOfSegment(f[1..], t);
      assert f == [f[0]] + f[1..];
    }
  }

  /**
    `split('.')` on `f.g` followed by nothing or by further segments yields
    field f and subfield g: segments after the second are ignored.
   */
  lemma SplitKey(f: string, g: string, rest: string)
    requires '.' !in f && '.' !in g && (rest == [] || rest[0] == '.')
    ensures var key := f + "." + g + rest;
      '.' in key && KeyField(key) == f && KeySubfield(key) == g
  {
    var key := f + "." + g + rest;
    assert key == f + ("." + g + rest);
    assert key[|f|] == '.';
    BeforeDotOfSegment(f, "." + g + rest);
    assert AfterDot(key) == g + rest;
    BeforeDotOfSegment(g, rest);
  }

  /** The value `element[sub]` of an element on which property access does not throw. */
  function SubValue(element: Value, sub: string): Value
    requires !Nullish(element)
  {
    Property(element, sub).value
  }

  /** A non-array field behaves exactly like a one-element array holding it. */
  lemma SingleValueIsOneElementArray(cart1: Props, cart2: Props, key: string, criterion: Value)
    requires '.' in key
    requires !Get(cart1, KeyField(key)).Arr? && Truthy(Get(cart1, KeyField(key)))
    requires Get(cart2, KeyField(key)) == Arr([Get(cart1, KeyField(key))])
    ensures CheckSubobject(key, criterion, cart1) == CheckSubobject(key, criterion, cart2)
  {
  }

  /**
    A dotted literal criterion on a truthy field with no null or undefined
    element holds iff the subfield of some element loosely equals it.
   */
  lemma DottedLiteral(cart: Props, key: string, criterion: Value)
    requires '.' in key && !IsObject(criterion)
    requires Truthy(Get(cart, KeyField(key)))
    requires forall e :: e in AsArray(Get(cart, KeyField(key))) ==> !Nullish(e)
    ensures CheckSubobject(key, criterion, cart) ==
      Done(SomeElementMatches(criterion, AsArray(Get(cart, KeyField(key))), KeySubfield(key)))
  {
    var elems, sub := AsArray(Get(cart, KeyField(key))), KeySubfield(key);
    assert CheckSubobject(key, criterion, cart) == Any(BasicOverElements(criterion, elems, sub));
    assert forall i :: 0 <= i < |elems| ==> !Nullish(elems[i]) by {
      forall i | 0 <= i < |elems| ensures !Nullish(elems[i]) { assert elems[i] in elems; }
    }
    LiteralRow(criterion, elems, sub);
  }

  /**
    A dotted literal criterion on a truthy field, with null and undefined
    elements allowed: it holds iff some element matches and every element
    before it is neither null nor undefined nor a match.
   */
  lemma DottedLiteralFirstMatch(cart: Props, key: string, criterion: Value)
    requires '.' in key && !IsObject(criterion)
    requires Truthy(Get(cart, KeyField(key)))
    ensures CheckSubobject(key, criterion, cart) == Done(true) <==>
      SomeFirstMatch(criterion, AsArray(Get(cart, KeyField(key))), KeySubfield(key))
  {
    var elems, sub := AsArray(Get(cart, KeyField(key))), KeySubfield(key);
    assert CheckSubobject(key, criterion, cart) == Any(BasicOverElements(criterion, elems, sub));
    LiteralFirstMatch(criterion, elems, sub);
  }

  /** `some` over the literal tests is true iff some element is the first match. */
  lemma LiteralFirstMatch(criterion: Value, elems: seq<Value>, sub: string)
    requires !IsObject(criterion)
    ensures Any(BasicOverElements(criterion, elems, sub)) == Done(true) <==> SomeFirstMatch(criterion, elems, sub)
  {
    var row := BasicOverElements(criterion, elems, sub);
    AnyTrue(row);
    if Any(row) == Done(true) {
      var i :| 0 <= i < |row| && row[i] == Done(true) && forall j :: 0 <= j < i ==> row[j] == Done(false);
      assert row[i] == BasicAt(criterion, elems[i], sub);
      assert forall j :: 0 <= j < i ==> row[j] == BasicAt(criterion, elems[j], sub);
      assert MatchesFirstAt(criterion, elems, sub, i);
    }
    if i :| MatchesFirstAt(criterion, elems, sub, i) {
      assert row[i] == Done(true);
      forall j | 0 <= j < i
        ensures row[j] == Done(false)
      {
        assert row[j] == BasicAt(criterion, elems[j], sub);
      }
    }
  }

  /** Some element is the first match of the literal. */
  predicate SomeFirstMatch(criterion: Value, elems: seq<Value>, sub: string)
    requires !IsObject(criterion)
  {
    exists i :: 0 <= i < |elems| && MatchesFirstAt(criterion, elems, sub, i)
  }

  /** Element i is the first match, and no element before it is null, undefined or a match. */
  predicate MatchesFirstAt(criterion: Value, elems: seq<Value>, sub: string, i: int)
    requires !IsObject(criterion)
  {
    && 0 <= i < |elems|
    && !Nullish(elems[i]) && CheckBasic(criterion, SubValue(elems[i], sub))
    && forall j :: 0 <= j < i ==> !Nullish(elems[j]) && !CheckBasic(criterion, SubValue(elems[j], sub))
  }

  /** The subfield of some element loosely equals the literal. */
  predicate SomeElementMatches(criterion: Value, elems: seq<Value>, sub: string)
    requires !IsObject(criterion)
    requires forall e :: e in elems ==> !Nullish(e)
  {
    exists i :: 0 <= i < |elems| && CheckBasic(criterion, SubValue(elems[i], sub))
  }

  /** The literal test over the elements, when nothing throws: some element matches. */
  lemma LiteralRow(criterion: Value, elems: seq<Value>, sub: string)
    requires !IsObject(criterion)
    requires forall e :: e in elems ==> !Nullish(e)
    ensures Any(BasicOverElements(criterion, elems, sub)) == Done(SomeElementMatches(criterion, elems, sub))
  {
    var row := BasicOverElements(criterion, elems, sub);
    assert forall i :: 0 <= i < |elems| ==> elems[i] in elems;
    assert forall i :: 0 <= i < |elems| ==> row[i] == Done(CheckBasic(criterion, SubValue(elems[i], sub)));
    AnyOfDone(row);
  }

  /** No operator of the map throws on the subfield of any element. */
  predicate OperatorsDecided(criterion: Value, elems: seq<Value>, sub: string)
    requires IsObject(criterion)
  {
    && (forall i :: 0 <= i < |elems| ==> !Nullish(elems[i]))
    && forall j, i :: 0 <= j < |Entries(criterion)| && 0 <= i < |elems| ==>
         CheckOp(Entries(criterion)[j].0, Entries(criterion)[j].1, SubValue(elems[i], sub)).Done?
  }

  /** Every operator of the map holds on the subfield of some element (a different one per operator allowed). */
  predicate EachOperatorSomeElement(criterion: Value, elems: seq<Value>, sub: string)
    requires IsObject(criterion)
    requires forall i :: 0 <= i < |elems| ==> !Nullish(elems[i])
  {
    forall j :: 0 <= j < |Entries(criterion)| ==>
      exists i :: 0 <= i < |elems| &&
        CheckOp(Entries(criterion)[j].0, Entries(criterion)[j].1, SubValue(elems[i], sub)) == Done(true)
  }

  /** One element whose subfield satisfies every operator of the map. */
  predicate SomeElementAllOperators(criterion: Value, elems: seq<Value>, sub: string)
    requires IsObject(criterion)
    requires forall i :: 0 <= i < |elems| ==> !Nullish(elems[i])
  {
    exists i :: 0 <= i < |elems| &&
      forall j :: 0 <= j < |Entries(criterion)| ==>
        CheckOp(Entries(criterion)[j].0, Entries(criterion)[j].1, SubValue(elems[i], sub)) == Done(true)
  }

  /**
    A dotted operator map on a truthy field, when nothing throws, holds iff
    each operator is satisfied by some element.
   */
  lemma DottedOperators(cart: Props, key: string, criterion: Value)
    requires '.' in key && IsObject(criterion)
    requires Truthy(Get(cart, KeyField(key)))
    requires OperatorsDecided(criterion, AsArray(Get(cart, KeyField(key))), KeySubfield(key))
    ensures CheckSubobject(key, criterion, cart) ==
      Done(EachOperatorSomeElement(criterion, AsArray(Get(cart, KeyField(key))), KeySubfield(key)))
  {
    var elems, sub := AsArray(Get(cart, KeyField(key))), KeySubfield(key);
    assert CheckSubobject(key, criterion, cart) == Every(OperatorsOverElements(criterion, elems, sub));
    OperatorRows(criterion, elems, sub);
  }

  /** Every operator of the map over the elements, when nothing throws: each has some element. */
  lemma OperatorRows(criterion: Value, elems: seq<Value>, sub: string)
    requires IsObject(criterion)
    requires OperatorsDecided(criterion, elems, sub)
    ensures Every(OperatorsOverElements(criterion, elems, sub)) == Done(EachOperatorSomeElement(criterion, elems, sub))
  {
    var es := Entries(criterion);
    var rows := OperatorsOverElements(criterion, elems, sub);
    forall j | 0 <= j < |es|
      ensures rows[j] == Done(exists i :: 0 <= i < |elems| && CheckOp(es[j].0, es[j].1, SubValue(elems[i], sub)) == Done(true))
    {
      OperatorRow(es[j].0, es[j].1, elems, sub);
    }
    EveryOfDone(rows);
  }

  /** One operator over the elements, when nothing throws: some element satisfies it. */
  lemma OperatorRow(op: string, arg: Value, elems: seq<Value>, sub: string)
    requires forall i :: 0 <= i < |elems| ==> !Nullish(elems[i])
    requires forall i :: 0 <= i < |elems| ==> CheckOp(op, arg, SubValue(elems[i], sub)).Done?
    ensures Any(OperatorOverElements(op, arg, elems, sub)) ==
      Done(exists i :: 0 <= i < |elems| && CheckOp(op, arg, SubValue(elems[i], sub)) == Done(true))
  {
    var row := OperatorOverElements(op, arg, elems, sub);
    assert forall i :: 0 <= i < |elems| ==> row[i] == CheckOp(op, arg, SubValue(elems[i], sub));
    AnyOfDone(row);
  }

  /**
    One element satisfying the whole map is enough for the dotted criterion
    to hold; the converse fails (see PerOperatorNotPerElement).
   */
  lemma SomeElementAllOperatorsSuffices(cart: Props, key: string, criterion: Value)
    requires '.' in key && IsObject(criterion)
    requires Truthy(Get(cart, KeyField(key)))
    requires OperatorsDecided(criterion, AsArray(Get(cart, KeyField(key))), KeySubfield(key))
    requires SomeElementAllOperators(criterion, AsArray(Get(cart, KeyField(key))), KeySubfield(key))
    ensures CheckSubobject(key, criterion, cart) == Done(true)
  {
    DottedOperators(cart, key, criterion);
  }

  // ---------------------------------------------------------------- when nothing throws

  /**
    An operator argument that cannot make the evaluator throw: `in` gets an
    array or a string, and a combinator gets something with entries whose
    own arguments are safe.
   */
  predicate SafeArg(op: string, arg: Value)
    decreases arg
  {
    && (op == "in" ==> arg.Arr? || arg.Str?)
    && (IsCombinator(op) ==>
          && !Nullish(arg)
          && (arg.Obj? ==> forall i :: 0 <= i < |arg.props| ==> SafeArg(arg.props[i].0, arg.props[i].1)))
  }

  lemma {:induction false} SafeArgDecided(op: string, arg: Value, x: Value)
    requires SafeArg(op, arg)
    ensures CheckOp(op, arg, x).Done?
    decreases arg
  {
    if IsCombinator(op) {
      SubOutcomesAreEntries(arg, x);
      var os := SubOutcomes(arg, x);
      if arg.Obj? {
        forall i | 0 <= i < |os|
          ensures os[i].Done?
        {
          SafeArgDecided(arg.props[i].0, arg.props[i].1, x);
        }
        EveryOfDone(os);
        AnyOfDone(os);
      } else {
        CombinatorOverNonObject(arg, x);
      }
    }
  }

  /** Every operator of an object criterion has a safe argument. */
  predicate SafeOperators(criterion: Value) {
    criterion.Obj? ==> forall j :: 0 <= j < |criterion.props| ==> SafeArg(criterion.props[j].0, criterion.props[j].1)
  }

  lemma EntryDecided(criterion: Value, j: nat, x: Value)
    requires IsObject(criterion) && SafeOperators(criterion) && j < |Entries(criterion)|
    ensures CheckOp(Entries(criterion)[j].0, Entries(criterion)[j].1, x).Done?
  {
    if criterion.Obj? {
      SafeArgDecided(criterion.props[j].0, criterion.props[j].1, x);
    } else {
      assert Entries(criterion)[j].0 == IndexKey(j);
      IndexKeyIsNoOperator(j);
    }
  }

  /**
    A criteria entry that cannot throw: safe operator arguments and, under a
    dotted key with a truthy field, no null or undefined element.
   */
  predicate SafeCriterion(cart: Props, key: string, criterion: Value) {
    && SafeOperators(criterion)
    && ('.' in key && Truthy(Get(cart, KeyField(key))) ==>
          forall e :: e in AsArray(Get(cart, KeyField(key))) ==> !Nullish(e))
  }

  lemma CriterionDecided(cart: Props, key: string, criterion: Value)
    requires SafeCriterion(cart, key, criterion)
    ensures CheckCriterion(cart, key, criterion).Done?
  {
    if '.' in key {
      var field := Get(cart, KeyField(key));
      if Truthy(field) {
        var elems, sub := AsArray(field), KeySubfield(key);
        assert forall i :: 0 <= i < |elems| ==> !Nullish(elems[i]) by {
          forall i | 0 <= i < |elems| ensures !Nullish(elems[i]) { assert elems[i] in elems; }
        }
        if !IsObject(criterion) {
          AnyOfDone(BasicOverElements(criterion, elems, sub));
        } else {
          var es := Entries(criterion);
          var rows := OperatorsOverElements(criterion, elems, sub);
          forall j | 0 <= j < |es|
            ensures rows[j].Done?
          {
            forall i | 0 <= i < |elems|
              ensures CheckOp(es[j].0, es[j].1, SubValue(elems[i], sub)).Done?
            {
              EntryDecided(criterion, j, SubValue(elems[i], sub));
            }
            OperatorRow(es[j].0, es[j].1, elems, sub);
          }
          EveryOfDone(rows);
        }
      }
    } else if IsObject(criterion) {
      var x := Get(cart, key);
      var os := OperatorOutcomes(criterion, x);
      forall j | 0 <= j < |os|
        ensures os[j].Done?
      {
        EntryDecided(criterion, j, x);
      }
      EveryOfDone(os);
    }
  }

  /**
    On safe criteria the evaluation never throws: it is the conjunction of
    the entries, and so does not depend on their order.
   */
  lemma SafeCriteriaDecided(cart: Props, criteria: Props)
    requires forall i :: 0 <= i < |criteria| ==> SafeCriterion(cart, criteria[i].0, criteria[i].1)
    ensures IsEligible(cart, criteria) ==
      Done(forall i :: 0 <= i < |criteria| ==> CheckCriterion(cart, criteria[i].0, criteria[i].1) == Done(true))
  {
    var os := CriteriaOutcomes(cart, criteria);
    forall i | 0 <= i < |criteria|
      ensures os[i].Done?
    {
      CriterionDecided(cart, criteria[i].0, criteria[i].1);
    }
    EveryOfDone(os);
  }
}
